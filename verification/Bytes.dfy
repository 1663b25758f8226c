// Bytes, little-endian numbers and where a buffer holds them.
module Bytes {

  type byte = b: int | 0 <= b < 256

  const ALL16: nat := 0xffff
  const ALL32: nat := 0xffff_ffff

  /** Whether a number can be written in `width` bytes. */
  predicate Fits(n: nat, width: nat)
  {
    if width == 0 then n == 0 else Fits(n / 256, width - 1)
  }

  function LE(n: nat, width: nat): (r: seq<byte>)
    ensures |r| == width
  {
    if width == 0 then [] else [n % 256] + LE(n / 256, width - 1)
  }

  /** The number some bytes spell, least significant first. */
  function Spelled(s: seq<byte>): nat
  {
    if s == [] then 0 else s[0] + 256 * Spelled(s[1..])
  }

  lemma {:induction false} SpelledIsWritten(n: nat, width: nat)
    requires Fits(n, width)
    ensures Spelled(LE(n, width)) == n
  {
    if width > 0 {
      SpelledIsWritten(n / 256, width - 1);
      assert LE(n, width)[1..] == LE(n / 256, width - 1);
    }
  }

  lemma {:induction false} FitsBounds(n: nat)
    ensures Fits(n, 2) <==> n <= ALL16
    ensures Fits(n, 4) <==> n <= ALL32
    ensures Fits(n, 8) <==> n < 0x1_0000_0000_0000_0000
  {
    FitsStep(n, 1);
    FitsStep(n, 2);
    FitsStep(n, 3);
    FitsStep(n, 4);
    FitsStep(n, 5);
    FitsStep(n, 6);
    FitsStep(n, 7);
    FitsStep(n, 8);
  }

  function Power256(width: nat): nat
  {
    if width == 0 then 1 else 256 * Power256(width - 1)
  }

  lemma {:induction false} FitsStep(n: nat, width: nat)
    ensures Fits(n, width) <==> n < Power256(width)
  {
    if width > 0 {
      FitsStep(n / 256, width - 1);
    }
  }

  /** `buffer` holds `x` from position `p` on. */
  predicate Holds(buffer: seq<byte>, p: nat, x: seq<byte>)
  {
    p + |x| <= |buffer| && buffer[p..p + |x|] == x
  }

  lemma {:induction false} HoldsSplit(buffer: seq<byte>, p: nat, x: seq<byte>, y: seq<byte>)
    ensures Holds(buffer, p, x + y) <==> Holds(buffer, p, x) && Holds(buffer, p + |x|, y)
  {
    if p + |x + y| <= |buffer| {
      var s := buffer[p..p + |x + y|];
      assert buffer[p..p + |x|] == s[..|x|] && buffer[p + |x|..p + |x| + |y|] == s[|x|..];
      assert s == s[..|x|] + s[|x|..];
      assert (x + y)[..|x|] == x && (x + y)[|x|..] == y;
    }
  }

  /** The number of `width` bytes at a position. */
  function Read(buffer: seq<byte>, p: nat, width: nat): nat
    requires p + width <= |buffer|
  {
    Spelled(buffer[p..p + width])
  }

  lemma {:induction false} ReadsWhatItHolds(buffer: seq<byte>, p: nat, n: nat, width: nat)
    requires Holds(buffer, p, LE(n, width)) && Fits(n, width)
    ensures Read(buffer, p, width) == n
  {
    SpelledIsWritten(n, width);
  }

  function Zeros(n: nat): (r: seq<byte>)
    ensures |r| == n
  {
    seq(n, i => 0)
  }

  lemma {:induction false} ZerosAreWritten(width: nat)
    ensures LE(0, width) == Zeros(width) && Fits(0, width)
  {
    if width > 0 {
      ZerosAreWritten(width - 1);
    }
  }

  /** A number in a record: its value and how many bytes it takes. */
  datatype Slot = Slot(value: nat, width: nat)

  /** Where slot `k` starts. */
  function Start(slots: seq<Slot>, k: nat): nat
    requires k <= |slots|
  {
    if k == 0 then 0 else Start(slots, k - 1) + slots[k - 1].width
  }

  /** The first `k` slots of a record, laid one after the other. */
  function PackTo(slots: seq<Slot>, k: nat): (r: seq<byte>)
    requires k <= |slots|
    ensures |r| == Start(slots, k)
  {
    if k == 0 then [] else PackTo(slots, k - 1) + LE(slots[k - 1].value, slots[k - 1].width)
  }

  function Pack(slots: seq<Slot>): (r: seq<byte>)
    ensures |r| == Start(slots, |slots|)
  {
    PackTo(slots, |slots|)
  }

  /** A buffer that holds a record reads each of its slots back. */
  lemma {:induction false} ReadsSlot(buffer: seq<byte>, p: nat, slots: seq<Slot>, n: nat, k: nat)
    requires k < n <= |slots| && Holds(buffer, p, PackTo(slots, n))
    requires Fits(slots[k].value, slots[k].width)
    ensures p + Start(slots, k) + slots[k].width <= |buffer|
    ensures Read(buffer, p + Start(slots, k), slots[k].width) == slots[k].value
  {
    HoldsSplit(buffer, p, PackTo(slots, n - 1), LE(slots[n - 1].value, slots[n - 1].width));
    if k == n - 1 {
      ReadsWhatItHolds(buffer, p + Start(slots, k), slots[k].value, slots[k].width);
    } else {
      ReadsSlot(buffer, p, slots, n - 1, k);
    }
  }

  /** A record with its first `k` slots written and zeros after them. */
  function Partial(slots: seq<Slot>, k: nat, total: nat): seq<byte>
    requires k <= |slots| && Start(slots, k) <= total
  {
    PackTo(slots, k) + Zeros(total - Start(slots, k))
  }

  /** A slot that holds zero is there already. */
  lemma {:induction false} SkipSlot(slots: seq<Slot>, k: nat, total: nat)
    requires k < |slots| && Start(slots, k + 1) <= total && slots[k].value == 0
    ensures Partial(slots, k, total) == Partial(slots, k + 1, total)
  {
    ZerosAreWritten(slots[k].width);
    assert Zeros(total - Start(slots, k)) == Zeros(slots[k].width) + Zeros(total - Start(slots, k + 1));
  }

  /** Writes a number in place; every other byte stays. */
  method WriteLE(buf: array<byte>, value: nat, at: nat, width: nat)
    requires at + width <= buf.Length
    modifies buf
    ensures buf[..] == old(buf[..at]) + LE(value, width) + old(buf[at + width..])
  {
    var rest := value;
    for k := 0 to width
      invariant buf[..at] == old(buf[..at])
      invariant buf[at..at + k] + LE(rest, width - k) == LE(value, width)
      invariant buf[at + width..] == old(buf[at + width..])
    {
      assert LE(rest, width - k) == [rest % 256] + LE(rest / 256, width - k - 1);
      buf[at + k] := rest % 256;
      rest := rest / 256;
      assert buf[at..at + k + 1] == buf[at..at + k] + [buf[at + k]];
    }
    assert buf[..] == buf[..at] + buf[at..at + width] + buf[at + width..];
  }

  method Alloc(n: nat) returns (buf: array<byte>)
    ensures fresh(buf) && buf[..] == Zeros(n)
  {
    buf := new byte[n](i => 0);
  }

  /** Writes the next slot of a record in place. */
  method PutSlot(buf: array<byte>, ghost slots: seq<Slot>, ghost k: nat, value: nat, at: nat, width: nat)
    requires k < |slots| && slots[k] == Slot(value, width)
    requires at == Start(slots, k) && Start(slots, k + 1) <= buf.Length
    requires buf[..] == Partial(slots, k, buf.Length)
    modifies buf
    ensures buf[..] == Partial(slots, k + 1, buf.Length)
  {
    WriteLE(buf, value, at, width);
  }
}
