// Joining and splitting texts, and whole numbers in decimal digits.
module Texts {

  function Join(texts: seq<string>, separator: string): string
  {
    if texts == [] then "" else if |texts| == 1 then texts[0] else texts[0] + separator + Join(texts[1..], separator)
  }

  /** JavaScript's `split` on one character. */
  function Split(text: string, mark: char): (parts: seq<string>)
    ensures parts != []
  {
    if text == "" then [""]
    else if text[0] == mark then [""] + Split(text[1..], mark)
    else
      var parts := Split(text[1..], mark);
      [[text[0]] + parts[0]] + parts[1..]
  }

  lemma {:induction false} SplitOfMarked(head: string, rest: string, mark: char)
    requires mark !in head
    ensures Split(head + [mark] + rest, mark) == [head] + Split(rest, mark)
    ensures Split(head, mark) == [head]
  {
    if head == "" {
      assert head + [mark] + rest == [mark] + rest;
    } else {
      SplitOfMarked(head[1..], rest, mark);
      assert head == [head[0]] + head[1..];
      assert (head + [mark] + rest)[1..] == head[1..] + [mark] + rest;
    }
  }

  /** Splitting what was joined gives the parts back, when no part holds the mark. */
  lemma {:induction false} SplitUndoesJoin(parts: seq<string>, mark: char)
    requires parts != [] && forall i :: 0 <= i < |parts| ==> mark !in parts[i]
    ensures Split(Join(parts, [mark]), mark) == parts
  {
    if |parts| == 1 {
      SplitOfMarked(parts[0], "", mark);
      assert parts == [parts[0]];
    } else {
      var joined := Join(parts[1..], [mark]);
      assert Join(parts, [mark]) == parts[0] + [mark] + joined;
      SplitUndoesJoin(parts[1..], mark);
      SplitOfMarked(parts[0], joined, mark);
      assert [parts[0]] + parts[1..] == parts;
    }
  }

  predicate IsDigit(c: char)
  {
    '0' <= c <= '9'
  }

  predicate AllDigits(s: string)
  {
    s != "" && forall i :: 0 <= i < |s| ==> IsDigit(s[i])
  }

  function DigitOf(d: nat): char
    requires d < 10
  {
    '0' + d as char
  }

  function Digits(n: nat): (s: string)
    ensures AllDigits(s)
  {
    if n < 10 then [DigitOf(n)] else Digits(n / 10) + [DigitOf(n % 10)]
  }

  function DigitValue(c: char): nat
    requires IsDigit(c)
  {
    c as int - '0' as int
  }

  function Number(s: string): nat
    requires forall i :: 0 <= i < |s| ==> IsDigit(s[i])
  {
    if s == "" then 0 else Number(s[..|s| - 1]) * 10 + DigitValue(s[|s| - 1])
  }

  lemma {:induction false} NumberOfDigits(n: nat)
    ensures Number(Digits(n)) == n
  {
    if n >= 10 {
      NumberOfDigits(n / 10);
      assert Digits(n)[..|Digits(n)| - 1] == Digits(n / 10);
    } else {
      assert Digits(n)[..0] == "";
    }
  }
}
