// Match codes: how a round is printed in them (packages/types/src/round-code.ts) and read back
// (packages/schedule-core/src/bracket-round-group.ts).
module RoundCode {
  import opened Options
  import opened Texts

  // ---- the printer ----

  function Pow2(n: nat): (p: nat)
    ensures p >= 1
  {
    if n == 0 then 1 else 2 * Pow2(n - 1)
  }

  /** How many rounds a bracket of this size has: the least n with 2^n at least the size. */
  function TotalRounds(size: nat): nat
  {
    if size <= 1 then 0 else 1 + TotalRounds((size + 1) / 2)
  }

  /** `bracketRoundLabel`: the round by how many fighters are left in it, or by its number. */
  function BracketRoundLabel(round: nat, size: Option<nat>): string
  {
    if round < 1 then ""
    else if size.None? || size.value < 2 then "B" + Digits(round)
    else
      var total := TotalRounds(size.value);
      if round > total then "B" + Digits(round)
      else LabelOfLeft(Pow2(total - round + 1))
  }

  function LabelOfLeft(left: nat): string
  {
    if left == 2 then "F" else if left == 4 then "SF" else if left == 8 then "QF" else "R" + Digits(left)
  }

  function DoubleElimRoundLabel(round: nat, wbRounds: nat, lbRounds: nat): string
  {
    if round == 0 then "PI"
    else if round <= wbRounds then "WB" + BracketRoundLabel(round, Some(Pow2(wbRounds)))
    else if round <= wbRounds + lbRounds then "LB" + Digits(round - wbRounds)
    else if round == wbRounds + lbRounds + 1 then "GF"
    else "GFR"
  }

  /** What the code of a bracket match is built from. */
  datatype Bracket = Bracket(size: Option<nat>, wbRounds: Option<nat>, lbRounds: Option<nat>)

  predicate IsDoubleElim(bracket: Bracket)
  {
    bracket.wbRounds.Some? && bracket.wbRounds.value != 0 && bracket.lbRounds.Some?
  }

  function BracketToken(round: nat, bracket: Bracket): string
  {
    if IsDoubleElim(bracket) then DoubleElimRoundLabel(round, bracket.wbRounds.value, bracket.lbRounds.value)
    else if round == 0 then "PI"
    else BracketRoundLabel(round, bracket.size)
  }

  datatype Place = InPool(pool: nat) | InSwiss(swissRound: nat) | InBracket(round: nat, bracket: Bracket)

  function Middle(place: Place): seq<string>
  {
    match place
    case InPool(pool) => ["P" + Digits(pool)]
    case InSwiss(round) => ["S" + Digits(round)]
    case InBracket(round, bracket) => ["B", BracketToken(round, bracket)]
  }

  /** A numbered match has a last segment; an empty number has none. */
  function MatchSegment(matchNumber: Option<nat>): seq<string>
  {
    if matchNumber.Some? then ["M" + Digits(matchNumber.value)] else []
  }

  function Segments(weapon: string, place: Place, matchNumber: Option<nat>): seq<string>
  {
    [weapon] + Middle(place) + MatchSegment(matchNumber)
  }

  function FormatRoundCode(weapon: string, place: Place, matchNumber: Option<nat>): string
  {
    Join(Segments(weapon, place, matchNumber), ['-'])
  }

  // ---- the reader ----

  /** `/^<mark>(\d+)$/`. */
  predicate IsCounted(part: string, mark: string)
  {
    mark <= part && AllDigits(part[|mark|..])
  }

  function CountOf(part: string, mark: string): nat
    requires IsCounted(part, mark)
  {
    Number(part[|mark|..])
  }

  /** The order is kept in tenths: the winners bracket's orders are not whole. */
  datatype Round = Round(token: string, tenths: int)

  function ParseSwissToken(parts: seq<string>): Option<Round>
  {
    if parts == [] then None
    else if IsCounted(parts[0], "S") then Some(Round(parts[0], 10 * (-1000 + CountOf(parts[0], "S"))))
    else ParseSwissToken(parts[1..])
  }

  /** 100 + (1000 - left) / 10. */
  function WinnersTenths(left: nat): int
  {
    1000 + (1000 - left)
  }

  function ParseDoubleElimToken(token: string): Option<int>
  {
    if token == "GF" then Some(9000)
    else if token == "GFR" then Some(9010)
    else if IsCounted(token, "LB") then Some(10 * (500 + CountOf(token, "LB")))
    else if token == "WBF" then Some(WinnersTenths(2))
    else if token == "WBSF" then Some(WinnersTenths(4))
    else if token == "WBQF" then Some(WinnersTenths(8))
    else if IsCounted(token, "WBR") then Some(WinnersTenths(CountOf(token, "WBR")))
    else if IsCounted(token, "WBB") then Some(1990)
    else None
  }

  function ParseToken(token: string): Option<int>
  {
    if token == "PI" then Some(0)
    else if ParseDoubleElimToken(token).Some? then ParseDoubleElimToken(token)
    else if token == "F" then Some(10 * (1000 - 2))
    else if token == "SF" then Some(10 * (1000 - 4))
    else if token == "QF" then Some(10 * (1000 - 8))
    else if IsCounted(token, "R") then Some(10 * (1000 - CountOf(token, "R")))
    else if IsCounted(token, "B") then Some(10 * (1000 + CountOf(token, "B")))
    else None
  }

  function IndexOf(parts: seq<string>, part: string): Option<nat>
  {
    if parts == [] then None
    else if parts[0] == part then Some(0)
    else
      match IndexOf(parts[1..], part)
      case None => None
      case Some(i) => Some(i + 1)
  }

  function ParseParts(parts: seq<string>): Option<Round>
  {
    var swiss := ParseSwissToken(parts);
    if swiss.Some? then swiss
    else
      var b := IndexOf(parts, "B");
      if b.None? || b.value + 1 >= |parts| then None
      else
        match ParseToken(parts[b.value + 1])
        case None => None
        case Some(tenths) => Some(Round(parts[b.value + 1], tenths))
  }

  function ParseBracketRound(code: string): Option<Round>
  {
    if code == "" then None else ParseParts(Split(code, '-'))
  }

  // ---- every token that is printed is read ----

  /** What the reader makes of a round printed by its number of fighters left, or by its own number. */
  function LabelTenths(round: nat, size: Option<nat>): int
  {
    if size.None? || size.value < 2 || round > TotalRounds(size.value) then 10 * (1000 + round)
    else 10 * (1000 - Pow2(TotalRounds(size.value) - round + 1))
  }

  function BracketTenths(round: nat, bracket: Bracket): int
  {
    if round == 0 then 0
    else if !IsDoubleElim(bracket) then LabelTenths(round, bracket.size)
    else if round <= bracket.wbRounds.value then WinnersTenths(Pow2(bracket.wbRounds.value - round + 1))
    else if round <= bracket.wbRounds.value + bracket.lbRounds.value then 10 * (500 + round - bracket.wbRounds.value)
    else if round == bracket.wbRounds.value + bracket.lbRounds.value + 1 then 9000
    else 9010
  }

  lemma {:induction false} CountedReads(mark: string, n: nat)
    ensures IsCounted(mark + Digits(n), mark) && CountOf(mark + Digits(n), mark) == n
  {
    assert (mark + Digits(n))[|mark|..] == Digits(n);
    NumberOfDigits(n);
  }

  lemma {:induction false} RoundOfReads(k: nat)
    ensures ParseToken("R" + Digits(k)) == Some(10 * (1000 - k))
  {
    var token := "R" + Digits(k);
    CountedReads("R", k);
    assert token[0] == 'R';
  }

  lemma {:induction false} FallbackReads(n: nat)
    ensures ParseToken("B" + Digits(n)) == Some(10 * (1000 + n))
  {
    var token := "B" + Digits(n);
    CountedReads("B", n);
    assert token[0] == 'B';
  }

  lemma {:induction false} LosersReads(n: nat)
    ensures ParseToken("LB" + Digits(n)) == Some(10 * (500 + n))
  {
    var token := "LB" + Digits(n);
    CountedReads("LB", n);
    assert token[0] == 'L';
  }

  lemma {:induction false} WinnersRoundReads(k: nat)
    ensures ParseToken("WBR" + Digits(k)) == Some(WinnersTenths(k))
  {
    var token := "WBR" + Digits(k);
    CountedReads("WBR", k);
    assert token[0] == 'W' && token[1] == 'B' && token[2] == 'R';
  }

  lemma {:induction false} PowersAreRounds(size: nat)
    requires size >= 2
    ensures Pow2(TotalRounds(size)) >= size && Pow2(TotalRounds(size) - 1) < size && TotalRounds(size) >= 1
  {
    if size > 2 {
      PowersAreRounds((size + 1) / 2);
    } else {
      assert TotalRounds(2) == 1 + TotalRounds(1);
    }
  }

  lemma {:induction false} RoundsOfAPower(n: nat)
    ensures TotalRounds(Pow2(n)) == n
  {
    if n > 0 {
      RoundsOfAPower(n - 1);
    }
  }

  lemma {:induction false} LabelReads(round: nat, size: Option<nat>)
    requires round >= 1
    ensures ParseToken(BracketRoundLabel(round, size)) == Some(LabelTenths(round, size))
  {
    if size.None? || size.value < 2 || round > TotalRounds(size.value) {
      FallbackReads(round);
    } else {
      RoundOfReads(Pow2(TotalRounds(size.value) - round + 1));
    }
  }

  lemma {:induction false} WinnersLeftReads(left: nat)
    ensures ParseToken("WB" + LabelOfLeft(left)) == Some(WinnersTenths(left))
  {
    if left == 2 {
      assert "WB" + "F" == "WBF";
    } else if left == 4 {
      assert "WB" + "SF" == "WBSF";
    } else if left == 8 {
      assert "WB" + "QF" == "WBQF";
    } else {
      WinnersRoundReads(left);
      assert "WB" + ("R" + Digits(left)) == "WBR" + Digits(left);
    }
  }

  lemma {:induction false} WinnersLabelIs(round: nat, wbRounds: nat)
    requires 1 <= round <= wbRounds
    ensures BracketRoundLabel(round, Some(Pow2(wbRounds))) == LabelOfLeft(Pow2(wbRounds - round + 1))
  {
    RoundsOfAPower(wbRounds);
    assert Pow2(wbRounds) >= 2;
  }

  lemma {:induction false} TokenReads(round: nat, bracket: Bracket)
    ensures ParseToken(BracketToken(round, bracket)) == Some(BracketTenths(round, bracket))
  {
    if IsDoubleElim(bracket) {
      var wb, lb := bracket.wbRounds.value, bracket.lbRounds.value;
      if 1 <= round <= wb {
        WinnersLabelIs(round, wb);
        WinnersLeftReads(Pow2(wb - round + 1));
      } else if wb < round <= wb + lb {
        LosersReads(round - wb);
      }
    } else if round >= 1 {
      LabelReads(round, bracket.size);
    }
  }

  // ---- a whole code ----

  /** `weaponAbbr` answers letters or question marks: neither digits nor a dash. */
  predicate IsWeaponCode(weapon: string)
  {
    weapon != "" && forall i :: 0 <= i < |weapon| ==> weapon[i] != '-' && !IsDigit(weapon[i])
  }

  predicate HasDash(part: string)
  {
    '-' in part
  }

  lemma {:induction false} DigitsHaveNoDash(mark: string, n: nat)
    requires !HasDash(mark)
    ensures !HasDash(mark + Digits(n)) && mark + Digits(n) != mark
  {
    var s := mark + Digits(n);
    forall i | 0 <= i < |s|
      ensures s[i] != '-'
    {
      if i >= |mark| {
        assert IsDigit(Digits(n)[i - |mark|]);
      }
    }
  }

  lemma {:induction false} LabelHasNoDash(round: nat, size: Option<nat>)
    ensures !HasDash(BracketRoundLabel(round, size)) && !IsCounted(BracketRoundLabel(round, size), "S")
  {
    DigitsHaveNoDash("B", round);
    assert ("B" + Digits(round))[0] == 'B';
    if size.Some? && round <= TotalRounds(size.value) {
      var left := Pow2(TotalRounds(size.value) - round + 1);
      DigitsHaveNoDash("R", left);
      assert ("R" + Digits(left))[0] == 'R';
    }
    assert "SF"[1..] == "F" && !IsDigit("F"[0]);
    assert "F"[0] == 'F' && "QF"[0] == 'Q';
  }

  lemma {:induction false} TokenHasNoDash(round: nat, bracket: Bracket)
    ensures !HasDash(BracketToken(round, bracket)) && !IsCounted(BracketToken(round, bracket), "S")
  {
    assert "PI"[0] == 'P' && "GF"[0] == 'G' && "GFR"[0] == 'G';
    if IsDoubleElim(bracket) {
      var wb := bracket.wbRounds.value;
      var depth := BracketRoundLabel(round, Some(Pow2(wb)));
      LabelHasNoDash(round, Some(Pow2(wb)));
      assert ("WB" + depth)[0] == 'W';
      if round > wb {
        DigitsHaveNoDash("LB", round - wb);
        assert ("LB" + Digits(round - wb))[0] == 'L';
      }
    } else if round >= 1 {
      LabelHasNoDash(round, bracket.size);
    }
  }

  lemma {:induction false} WeaponIsNotCounted(weapon: string)
    requires IsWeaponCode(weapon)
    ensures !HasDash(weapon) && !IsCounted(weapon, "S")
  {
    if "S" <= weapon && |weapon| > 1 {
      assert weapon[1..][0] == weapon[1];
    }
  }

  /** The segments of a code come back from it. */
  lemma {:induction false} SegmentsComeBack(weapon: string, place: Place, matchNumber: Option<nat>)
    requires IsWeaponCode(weapon)
    ensures ParseBracketRound(FormatRoundCode(weapon, place, matchNumber)) == ParseParts(Segments(weapon, place, matchNumber))
  {
    var parts := Segments(weapon, place, matchNumber);
    WeaponIsNotCounted(weapon);
    match place {
      case InPool(pool) => DigitsHaveNoDash("P", pool);
      case InSwiss(round) => DigitsHaveNoDash("S", round);
      case InBracket(round, bracket) => TokenHasNoDash(round, bracket);
    }
    if matchNumber.Some? {
      DigitsHaveNoDash("M", matchNumber.value);
    }
    assert forall i :: 0 <= i < |parts| ==> !HasDash(parts[i]);
    SplitUndoesJoin(parts, '-');
    assert parts[0] == weapon && |parts| > 1;
  }

  lemma {:induction false} MatchIsNotCounted(matchNumber: Option<nat>)
    ensures ParseSwissToken(MatchSegment(matchNumber)) == None
  {
    if matchNumber.Some? {
      assert ("M" + Digits(matchNumber.value))[0] == 'M';
      assert MatchSegment(matchNumber)[1..] == [];
    }
  }

  lemma {:induction false} SwissIsFurtherOn(part: string, more: seq<string>)
    requires !IsCounted(part, "S")
    ensures ParseSwissToken([part] + more) == ParseSwissToken(more)
  {
    assert ([part] + more)[1..] == more;
  }

  lemma {:induction false} NoSwissInBracket(weapon: string, token: string, matchNumber: Option<nat>)
    requires IsWeaponCode(weapon) && !IsCounted(token, "S")
    ensures ParseSwissToken([weapon, "B", token] + MatchSegment(matchNumber)) == None
  {
    var last := MatchSegment(matchNumber);
    WeaponIsNotCounted(weapon);
    MatchIsNotCounted(matchNumber);
    assert "B"[0] == 'B';
    SwissIsFurtherOn(token, last);
    SwissIsFurtherOn("B", [token] + last);
    SwissIsFurtherOn(weapon, ["B"] + ([token] + last));
    assert [weapon, "B", token] + last == [weapon] + (["B"] + ([token] + last));
  }

  lemma {:induction false} BIsRead(weapon: string, token: string, more: seq<string>)
    ensures IndexOf([weapon, "B", token] + more, "B") == Some(if weapon == "B" then 0 else 1)
  {
    var parts := [weapon, "B", token] + more;
    assert parts[1..][0] == "B";
  }

  /**
   * Reading a printed bracket code gives the token that was printed, with the order of its round,
   * exactly when the weapon's own code is not `B`; then it gives nothing.
   */
  lemma {:induction false} BracketCodeReadsBack(weapon: string, round: nat, bracket: Bracket, matchNumber: Option<nat>)
    requires IsWeaponCode(weapon)
    ensures ParseBracketRound(FormatRoundCode(weapon, InBracket(round, bracket), matchNumber))
            == if weapon == "B" then None else Some(Round(BracketToken(round, bracket), BracketTenths(round, bracket)))
  {
    var token := BracketToken(round, bracket);
    var parts := [weapon, "B", token] + MatchSegment(matchNumber);
    SegmentsComeBack(weapon, InBracket(round, bracket), matchNumber);
    assert Segments(weapon, InBracket(round, bracket), matchNumber) == parts;
    TokenHasNoDash(round, bracket);
    NoSwissInBracket(weapon, token, matchNumber);
    BIsRead(weapon, token, MatchSegment(matchNumber));
    TokenReads(round, bracket);
    assert parts[1] == "B" && parts[2] == token;
  }

  /** Reading a printed Swiss code gives its round back, whatever the weapon. */
  lemma {:induction false} SwissCodeReadsBack(weapon: string, round: nat, matchNumber: Option<nat>)
    requires IsWeaponCode(weapon)
    ensures ParseBracketRound(FormatRoundCode(weapon, InSwiss(round), matchNumber))
            == Some(Round("S" + Digits(round), 10 * (-1000 + round)))
  {
    var parts := Segments(weapon, InSwiss(round), matchNumber);
    SegmentsComeBack(weapon, InSwiss(round), matchNumber);
    WeaponIsNotCounted(weapon);
    CountedReads("S", round);
    SwissIsFurtherOn(weapon, parts[1..]);
    assert parts == [weapon] + parts[1..];
    assert parts[1..][0] == "S" + Digits(round);
  }

  // ---- the order of the rounds ----

  lemma {:induction false} PowersGrow(a: nat, b: nat)
    requires a < b
    ensures Pow2(a) < Pow2(b)
  {
    if a < b - 1 {
      PowersGrow(a, b - 1);
    }
  }

  /** The rounds of a bracket run up to this one; a single elimination has no last. */
  predicate IsRound(round: nat, bracket: Bracket)
  {
    IsDoubleElim(bracket) ==> round <= bracket.wbRounds.value + bracket.lbRounds.value + 2
  }

  /** The bracket is within what the orders leave room for. */
  predicate HasRoom(bracket: Bracket)
  {
    if IsDoubleElim(bracket) then bracket.wbRounds.value <= 10 && bracket.lbRounds.value < 400
    else bracket.size.None? || bracket.size.value <= 512
  }

  lemma {:induction false} PowerAtMost(n: nat, limit: nat)
    requires n <= limit
    ensures Pow2(n) <= Pow2(limit)
  {
    if n < limit {
      PowersGrow(n, limit);
    }
  }

  lemma {:induction false} LaterWinnersIsLarger(first: nat, second: nat, wb: nat)
    requires first < second <= wb <= 10
    ensures 0 < WinnersTenths(Pow2(wb - second + 1)) < 2000
    ensures first >= 1 ==> WinnersTenths(Pow2(wb - first + 1)) < WinnersTenths(Pow2(wb - second + 1))
  {
    PowerAtMost(wb - second + 1, 10);
    if first >= 1 {
      PowersGrow(wb - second + 1, wb - first + 1);
    }
  }

  lemma {:induction false} LaterLabelIsLarger(first: nat, second: nat, size: Option<nat>)
    requires first < second && (size.None? || size.value <= 512)
    ensures LabelTenths(second, size) > 0
    ensures first >= 1 ==> LabelTenths(first, size) < LabelTenths(second, size)
  {
    if size.Some? && size.value >= 2 {
      var total := TotalRounds(size.value);
      RoundsOfSmallSize(size.value);
      if second <= total {
        PowerAtMost(total - second + 1, 9);
        if first >= 1 {
          PowersGrow(total - second + 1, total - first + 1);
        }
      }
    }
  }

  lemma {:induction false} LaterIsLarger(first: nat, second: nat, bracket: Bracket)
    requires HasRoom(bracket) && first < second && IsRound(second, bracket)
    ensures BracketTenths(first, bracket) < BracketTenths(second, bracket)
  {
    if IsDoubleElim(bracket) {
      var wb := bracket.wbRounds.value;
      if second <= wb {
        LaterWinnersIsLarger(first, second, wb);
      } else if 1 <= first <= wb {
        LaterWinnersIsLarger(0, first, wb);
      }
    } else {
      LaterLabelIsLarger(first, second, bracket.size);
    }
  }

  lemma {:induction false} RoundsOfSmallSize(size: nat)
    requires size >= 2
    ensures size <= 512 <==> TotalRounds(size) <= 9
  {
    PowersAreRounds(size);
    if TotalRounds(size) <= 9 {
      PowerAtMost(TotalRounds(size), 9);
    } else {
      PowerAtMost(9, TotalRounds(size) - 1);
    }
  }

  /** Without room two rounds stand in the wrong order: the first of too many, or the last losers round. */
  lemma {:induction false} NoRoomNoOrder(bracket: Bracket) returns (first: nat, second: nat)
    requires !HasRoom(bracket)
    ensures first < second && IsRound(second, bracket)
    ensures BracketTenths(first, bracket) >= BracketTenths(second, bracket)
  {
    first, second := 0, 1;
    if IsDoubleElim(bracket) {
      var wb, lb := bracket.wbRounds.value, bracket.lbRounds.value;
      if wb > 10 {
        PowerAtMost(11, wb);
      } else {
        first, second := wb + lb, wb + lb + 1;
      }
    } else {
      RoundsOfSmallSize(bracket.size.value);
      PowerAtMost(10, TotalRounds(bracket.size.value));
    }
  }

  /** The order a reader gives the code of a round. */
  function OrderRead(weapon: string, round: nat, bracket: Bracket, matchNumber: Option<nat>): int
    requires IsWeaponCode(weapon) && weapon != "B"
  {
    BracketCodeReadsBack(weapon, round, bracket, matchNumber);
    ParseBracketRound(FormatRoundCode(weapon, InBracket(round, bracket), matchNumber)).value.tenths
  }

  /**
   * The order read from the codes of a bracket strictly increases with its rounds exactly when the
   * bracket has room: at most 512 fighters, or at most 10 winners and fewer than 400 losers rounds.
   */
  lemma {:induction false} OrderFollowsTheRounds(weapon: string, bracket: Bracket, matchNumber: Option<nat>)
    requires IsWeaponCode(weapon) && weapon != "B"
    ensures HasRoom(bracket) <==>
            forall first: nat, second: nat :: first < second && IsRound(second, bracket) ==>
              OrderRead(weapon, first, bracket, matchNumber) < OrderRead(weapon, second, bracket, matchNumber)
  {
    forall round: nat
      ensures OrderRead(weapon, round, bracket, matchNumber) == BracketTenths(round, bracket)
    {
      BracketCodeReadsBack(weapon, round, bracket, matchNumber);
    }
    if HasRoom(bracket) {
      forall first: nat, second: nat | first < second && IsRound(second, bracket)
        ensures OrderRead(weapon, first, bracket, matchNumber) < OrderRead(weapon, second, bracket, matchNumber)
      {
        LaterIsLarger(first, second, bracket);
      }
    } else {
      var first, second := NoRoomNoOrder(bracket);
    }
  }

  /** A Swiss phase stands before the play-in and before every bracket round, up to 999 rounds of it. */
  lemma {:induction false} SwissStandsFirst(weapon: string, swissRound: nat, round: nat, bracket: Bracket, matchNumber: Option<nat>)
    requires IsWeaponCode(weapon) && weapon != "B" && HasRoom(bracket) && swissRound < 1000 && IsRound(round, bracket)
    ensures ParseBracketRound(FormatRoundCode(weapon, InSwiss(swissRound), matchNumber)).Some?
    ensures ParseBracketRound(FormatRoundCode(weapon, InSwiss(swissRound), matchNumber)).value.tenths
            < OrderRead(weapon, round, bracket, matchNumber)
  {
    SwissCodeReadsBack(weapon, swissRound, matchNumber);
    BracketCodeReadsBack(weapon, round, bracket, matchNumber);
    if round > 0 {
      LaterIsLarger(0, round, bracket);
    }
  }
}
