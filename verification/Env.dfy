/**
 The persistent environment of os/env.c: a checksummed 4 KB flash image of name=value strings and
 the 64-slot table it is loaded into. A C string is the sequence of its bytes without the final NUL.
 */
module Env {

  import opened Base
  import opened Words

  type CString = s: seq<Byte> | 0 !in s

  const SECSIZE := 4096
  const NVAR := 64
  const EQUALS: Byte := 61

  // ---------------------------------------------------------------------------
  // The checksum, lines 211-234.

  /** Two bytes as a big-endian 16-bit word. */
  function Word(high: int, low: int): int {
    high * 256 + low
  }

  /** The sum of the big-endian 16-bit words of s. */
  function WordSum(s: seq<Byte>): nat {
    if |s| < 2 then 0 else Word(s[0], s[1]) + WordSum(s[2..])
  }

  lemma {:induction false} WordSumStep(s: seq<Byte>, k: nat)
    requires 2 * k + 2 <= |s|
    ensures WordSum(s[..2 * k + 2]) == WordSum(s[..2 * k]) + Word(s[2 * k], s[2 * k + 1])
  {
    if k == 0 {
      assert s[..2][2..] == [];
    } else {
      var t := s[2..];
      WordSumStep(t, k - 1);
      assert s[..2 * k][2..] == t[..2 * (k - 1)];
      assert s[..2 * k + 2][2..] == t[..2 * (k - 1) + 2];
    }
  }

  /** The sum of two pieces, cut between words, is that of both. */
  lemma {:induction false} WordSumAppend(a: seq<Byte>, b: seq<Byte>)
    requires |a| % 2 == 0
    ensures WordSum(a + b) == WordSum(a) + WordSum(b)
  {
    if a == [] {
      assert a + b == b;
    } else {
      assert (a + b)[2..] == a[2..] + b;
      WordSumAppend(a[2..], b);
    }
  }

  /** Byte i counts 256-fold when it is the first of its word, and once otherwise. */
  lemma {:induction false} WordSumUpdate(s: seq<Byte>, i: nat, x: Byte)
    requires i < |s| && |s| % 2 == 0
    ensures WordSum(s[i := x]) - WordSum(s) == (x as int - s[i]) * (if i % 2 == 0 then 256 else 1)
  {
    if i >= 2 {
      assert s[i := x][2..] == s[2..][i - 2 := x];
      WordSumUpdate(s[2..], i - 2, x);
    } else {
      assert s[i := x][2..] == s[2..];
    }
  }

  /** No change of a single byte goes unnoticed. */
  lemma OneByteDetected(s: seq<Byte>, i: nat, x: Byte)
    requires i < |s| && |s| % 2 == 0 && x != s[i]
    ensures WordSum(s) % TWO16 == 0 ==> WordSum(s[i := x]) % TWO16 != 0
  {
    WordSumUpdate(s, i, x);
    var a, b := WordSum(s), WordSum(s[i := x]);
    if a % TWO16 == 0 && b % TWO16 == 0 {
      SmallDifference(a, b);
      assert false;
    }
  }

  lemma SmallDifference(a: nat, b: nat)
    requires a % TWO16 == b % TWO16 && -TWO16 < b - a < TWO16
    ensures a == b
  {
    assert a == TWO16 * (a / TWO16) + a % TWO16 && b == TWO16 * (b / TWO16) + b % TWO16;
  }

  /** Storing the negated sum in the first word makes the whole sum vanish. The image is the buffer's first SECSIZE bytes. */
  method Cksum(p: array<Byte>, store: bool) returns (sum: nat)
    requires p.Length >= SECSIZE
    modifies if store then {p} else {}
    ensures p[2..] == old(p[2..])
    ensures if store then WordSum(p[..SECSIZE]) % TWO16 == 0 else sum == WordSum(p[..SECSIZE]) % TWO16
  {
    if store {
      p[0], p[1] := 0, 0;
    }
    sum := 0;
    var k := 0;
    ghost var all := p[..];
    ghost var image := all[..SECSIZE];
    while k < SECSIZE / 2
      invariant k <= SECSIZE / 2 && p[..] == all
      invariant sum == WordSum(image[..2 * k]) % TWO16
    {
      assert image[2 * k] == p[2 * k] && image[2 * k + 1] == p[2 * k + 1];
      WordSumStep(image, k);
      Accumulates(WordSum(image[..2 * k]), p[2 * k], p[2 * k + 1]);
      sum := (sum + Word(p[2 * k], 0)) % TWO16;
      sum := (sum + p[2 * k + 1]) % TWO16;
      k := k + 1;
    }
    assert image[..2 * k] == image;
    if store {
      assert image[0] == 0 && image[1] == 0;
      sum := (TWO16 - sum) % TWO16;
      p[0] := sum / 256;
      p[1] := sum % 256;
      assert p[..SECSIZE][2..] == image[2..];
      Vanishes(WordSum(image), sum);
    }
  }

  lemma Accumulates(total: nat, high: nat, low: nat)
    ensures ((total % TWO16 + Word(high, 0)) % TWO16 + low) % TWO16 == (total + Word(high, low)) % TWO16
  {
  }

  lemma Vanishes(total: nat, sum: nat)
    requires sum == (TWO16 - total % TWO16) % TWO16
    ensures (Word(sum / 256, sum % 256) + total) % TWO16 == 0 && sum < TWO16
  {
    assert total == (total / TWO16) * TWO16 + total % TWO16;
    if total % TWO16 == 0 {
      assert sum == 0;
    } else {
      assert sum == TWO16 - total % TWO16;
      assert sum + total == (total / TWO16 + 1) * TWO16;
    }
  }

  // ---------------------------------------------------------------------------
  // The image.

  datatype Entry = Entry(name: CString, value: CString)

  function Encode(e: Entry): seq<Byte> {
    e.name + [EQUALS] + e.value + [0]
  }

  function EncodeAll(es: seq<Entry>): seq<Byte> {
    if es == [] then [] else Encode(es[0]) + EncodeAll(es[1..])
  }

  lemma {:induction false} EncodeAllAppend(a: seq<Entry>, b: seq<Entry>)
    ensures EncodeAll(a + b) == EncodeAll(a) + EncodeAll(b)
  {
    hide Encode;
    if a == [] {
      assert a + b == b;
    } else {
      EncodeAllAppend(a[1..], b);
      assert (a + b)[1..] == a[1..] + b;
      assert Encode(a[0]) + (EncodeAll(a[1..]) + EncodeAll(b)) == (Encode(a[0]) + EncodeAll(a[1..])) + EncodeAll(b);
    }
  }

  lemma EncodeOne(e: Entry)
    ensures EncodeAll([e]) == Encode(e)
  {
    assert [e][1..] == [];
  }

  lemma EncodeSnoc(es: seq<Entry>, i: nat)
    requires i < |es|
    ensures EncodeAll(es[..i + 1]) == EncodeAll(es[..i]) + Encode(es[i])
  {
    hide Encode, EncodeAll;
    assert es[..i + 1] == es[..i] + [es[i]];
    EncodeAllAppend(es[..i], [es[i]]);
    EncodeOne(es[i]);
  }

  lemma EncodeSplit(es: seq<Entry>, i: nat)
    requires i < |es|
    ensures EncodeAll(es[..i + 1]) == EncodeAll(es[..i]) + Encode(es[i])
    ensures EncodeAll(es) == EncodeAll(es[..i]) + Encode(es[i]) + EncodeAll(es[i + 1..])
  {
    hide Encode, EncodeAll;
    EncodeSnoc(es, i);
    EncodeAllAppend(es[..i + 1], es[i + 1..]);
    assert es == es[..i + 1] + es[i + 1..];
  }

  /** What set_rom_env stores: a name that can be read back, at most 255 bytes with '=' and NUL. */
  predicate Storable(name: CString, value: CString) {
    name != [] && EQUALS !in name && |name| + |value| + 2 <= 255
  }

  ghost predicate WellFormed(es: seq<Entry>) {
    && (forall i | 0 <= i < |es| :: Storable(es[i].name, es[i].value))
    && (forall i, j | 0 <= i < j < |es| :: es[i].name != es[j].name)
  }

  /** The bytes from offset 2 are the entries and one more NUL; what follows is left over. */
  ghost predicate Holds(image: seq<Byte>, es: seq<Entry>) {
    |image| == SECSIZE && WellFormed(es) && EncodeAll(es) + [0] <= image[2..]
  }

  /** The position of entry i. */
  ghost function Offset(es: seq<Entry>, i: nat): nat
    requires i <= |es|
  {
    2 + |EncodeAll(es[..i])|
  }

  /** Entry i as it lies in the image. */
  lemma EntryAt(image: seq<Byte>, es: seq<Entry>, i: nat)
    requires Holds(image, es) && i < |es|
    ensures
      var o, e := Offset(es, i), es[i];
      && Offset(es, i + 1) == o + |Encode(e)| < SECSIZE
      && image[o..o + |Encode(e)|] == Encode(e)
  {
    hide Encode, EncodeAll, WellFormed;
    EncodeSplit(es, i);
    var before, e, after := EncodeAll(es[..i]), Encode(es[i]), EncodeAll(es[i + 1..]);
    SliceOfPrefix(image, before, e, after + [0]);
    assert before + e + after + [0] == before + e + (after + [0]);
  }

  lemma SliceOfPrefix(image: seq<Byte>, a: seq<Byte>, b: seq<Byte>, c: seq<Byte>)
    requires |image| >= 2 && a + b + c <= image[2..]
    ensures image[2..2 + |a|] == a
    ensures image[2 + |a|..2 + |a| + |b|] == b
    ensures c <= image[2 + |a| + |b|..]
  {
    var rest := image[2..];
    assert rest[..|a + b + c|] == a + b + c;
    assert image[2..2 + |a|] == rest[..|a|] == (a + b + c)[..|a|];
    assert image[2 + |a|..2 + |a| + |b|] == rest[|a|..|a| + |b|] == (a + b + c)[|a|..|a| + |b|];
    var tail := image[2 + |a| + |b|..];
    assert tail[..|c|] == rest[|a| + |b|..|a| + |b| + |c|] == (a + b + c)[|a| + |b|..];
  }

  lemma EndAt(image: seq<Byte>, es: seq<Entry>)
    requires Holds(image, es)
    ensures Offset(es, |es|) < SECSIZE && image[Offset(es, |es|)] == 0
  {
    assert es[..|es|] == es;
    assert image[2..][|EncodeAll(es)|] == (EncodeAll(es) + [0])[|EncodeAll(es)|];
  }

  /** Entry i byte by byte. */
  lemma EntryBytes(image: seq<Byte>, es: seq<Entry>, i: nat)
    requires Holds(image, es) && i < |es|
    ensures
      var o, e := Offset(es, i), es[i];
      var v := o + |e.name| + 1;
      && Offset(es, i + 1) == v + |e.value| + 1 < SECSIZE
      && (forall x | 0 <= x < |e.name| :: image[o + x] == e.name[x])
      && image[v - 1] == EQUALS
      && (forall x | 0 <= x < |e.value| :: image[v + x] == e.value[x])
      && image[v + |e.value|] == 0
      && (forall x | o <= x < v + |e.value| :: image[x] != 0)
  {
    EntryAt(image, es, i);
    var o, e := Offset(es, i), es[i];
    var enc := Encode(e);
    var at := image[o..o + |enc|];
    assert forall x | 0 <= x < |enc| :: at[x] == image[o + x];
    assert forall x | 0 <= x < |e.name| :: enc[x] == e.name[x];
    assert enc[|e.name|] == EQUALS;
    assert forall x | 0 <= x < |e.value| :: enc[|e.name| + 1 + x] == e.value[x];
    assert enc[|e.name| + 1 + |e.value|] == 0;
    assert forall x | 0 <= x < |enc| - 1 :: enc[x] != 0;
    forall x | o <= x < o + |enc| - 1
      ensures image[x] != 0
    {
      assert at[x - o] == image[x];
    }
  }

  /** One slot of envvar: no name, or a name with a value that may be missing. */
  datatype Slot = Free | Used(name: CString, value: Option<CString>)

  // ---------------------------------------------------------------------------
  // unset_rom_env, lines 281-336.

  /** The entries other than the one called name. */
  function Without(es: seq<Entry>, name: CString): seq<Entry> {
    if es == [] then []
    else if es[0].name == name then Without(es[1..], name)
    else [es[0]] + Without(es[1..], name)
  }

  /** Lines 303-311: does the entry at ep carry this name? */
  method NameAt(p: array<Byte>, sp: nat, name: CString, ghost e: Entry) returns (ep: nat, match': bool)
    requires EQUALS !in name && EQUALS !in e.name
    requires sp + |e.name| < p.Length && p[sp + |e.name|] == EQUALS
    requires forall x | 0 <= x < |e.name| :: p[sp + x] == e.name[x]
    ensures match' <==> e.name == name
    ensures sp <= ep <= sp + |e.name|
  {
    ep := sp;
    var np := 0;
    while np < |name| && p[ep] == name[np] && p[ep] != EQUALS
      invariant np <= |name| && np <= |e.name| && ep == sp + np
      invariant forall x | 0 <= x < np :: name[x] == e.name[x]
    {
      ep := ep + 1;
      np := np + 1;
    }
    if np < |e.name| {
      assert p[ep] == e.name[np] && e.name[np] in e.name;
    }
    match' := np == |name| && (p[ep] == 0 || p[ep] == EQUALS);
    if match' {
      assert e.name == name;
    }
  }

  lemma HoldsBasics(image: seq<Byte>, es: seq<Entry>)
    requires Holds(image, es)
    ensures |image| == SECSIZE && WellFormed(es) && Offset(es, 0) == 2
  {
  }

  /** Lines 313 and 329: past the NUL that ends the entry. */
  method SkipString(p: array<Byte>, from: nat, ghost nul: nat) returns (ep: nat)
    requires from <= nul < p.Length && p[nul] == 0 && forall x | from <= x < nul :: p[x] != 0
    ensures ep == nul + 1
  {
    ep := from;
    while p[ep] != 0
      invariant from <= ep <= nul
      decreases nul - ep
    {
      ep := ep + 1;
    }
    ep := ep + 1;
  }

  /** Lines 314-317: close the gap. */
  method MoveDown(p: array<Byte>, sp: nat, from: nat)
    requires sp <= from <= p.Length
    modifies p
    ensures p[..sp] == old(p[..sp])
    ensures p[sp..sp + p.Length - from] == old(p[from..])
  {
    var s, ep := sp, from;
    ghost var was := p[..];
    while ep < p.Length
      invariant from <= ep <= p.Length && s == sp + ep - from
      invariant forall x | 0 <= x < sp || ep <= x < p.Length :: p[x] == was[x]
      invariant forall x | sp <= x < s :: p[x] == was[x - sp + from]
    {
      p[s] := p[ep];
      s := s + 1;
      ep := ep + 1;
    }
    assert p[sp..s] == was[from..];
  }

  /** With distinct names, removing by name is removing one entry. */
  lemma {:induction false} WithoutAt(es: seq<Entry>, i: nat)
    requires i < |es| && WellFormed(es)
    ensures Without(es, es[i].name) == es[..i] + es[i + 1..]
  {
    if i == 0 {
      WithoutAbsent(es[1..], es[0].name);
      assert es[..0] + es[1..] == es[1..];
    } else {
      WithoutAt(es[1..], i - 1);
      assert es[1..][i - 1] == es[i];
      assert [es[0]] + (es[1..][..i - 1] + es[1..][i..]) == es[..i] + es[i + 1..];
    }
  }

  lemma {:induction false} WithoutAbsent(es: seq<Entry>, name: CString)
    requires forall i | 0 <= i < |es| :: es[i].name != name
    ensures Without(es, name) == es
  {
    if es != [] {
      WithoutAbsent(es[1..], name);
    }
  }

  /** Closing the gap of entry i leaves the other entries. */
  lemma Removed(image: seq<Byte>, image': seq<Byte>, es: seq<Entry>, i: nat)
    requires Holds(image, es) && i < |es| && |image'| == SECSIZE
    requires Offset(es, i) <= Offset(es, i + 1) < SECSIZE
    requires
      var o, next := Offset(es, i), Offset(es, i + 1);
      image'[2..o] == image[2..o] && image'[o..o + SECSIZE - next] == image[next..]
    ensures Holds(image', es[..i] + es[i + 1..])
  {
    hide Encode, EncodeAll, WellFormed;
    var before, enc, after := EncodeAll(es[..i]), Encode(es[i]), EncodeAll(es[i + 1..]);
    WellFormedRest(es, i);
    EncodeSplit(es, i);
    EncodeAllAppend(es[..i], es[i + 1..]);
    assert before + enc + after + [0] == before + enc + (after + [0]);
    SliceOfPrefix(image, before, enc, after + [0]);
    Joined(image', before, after + [0], SECSIZE - Offset(es, i + 1));
    assert before + after + [0] == before + (after + [0]);
  }

  lemma WellFormedRest(es: seq<Entry>, i: nat)
    requires WellFormed(es) && i < |es|
    ensures WellFormed(es[..i] + es[i + 1..])
  {
    hide Storable;
  }

  /** Two adjacent stretches, the second a prefix of a longer one. */
  lemma Joined(image: seq<Byte>, a: seq<Byte>, b: seq<Byte>, n: nat)
    requires 2 + |a| + n <= |image| && image[2..2 + |a|] == a && b <= image[2 + |a|..2 + |a| + n]
    ensures a + b <= image[2..]
  {
    assert image[2..][..|a|] == image[2..2 + |a|];
    assert image[2..][|a|..|a| + |b|] == image[2 + |a|..2 + |a| + n][..|b|];
    assert image[2..][..|a| + |b|] == image[2..][..|a|] + image[2..][|a|..|a| + |b|];
  }

  lemma HoldsIgnoresChecksum(a: seq<Byte>, b: seq<Byte>, es: seq<Entry>)
    requires Holds(a, es) && |b| == SECSIZE && a[2..] == b[2..]
    ensures Holds(b, es)
  {
  }

  /** A well-formed image is empty exactly if it has no entry. */
  lemma FirstByte(image: seq<Byte>, es: seq<Entry>)
    requires Holds(image, es)
    ensures image[2] == 0 <==> es == []
  {
    if es != [] {
      EntryBytes(image, es, 0);
      assert image[2] == es[0].name[0];
    }
  }

  /** Lines 318-321: with no entry left, the fourth byte is cleared too. */
  lemma HoldsEmpty(a: seq<Byte>, es: seq<Entry>)
    requires Holds(a, es) && a[2] == 0
    ensures Holds(a[3 := 0], es)
  {
    FirstByte(a, es);
  }

  /** Lines 314-322: the entry between sp and next goes, and the checksum is renewed. */
  method DeleteAt(p: array<Byte>, sp: nat, next: nat, ghost es: seq<Entry>, ghost i: nat)
    requires p.Length == SECSIZE && Holds(p[..], es) && i < |es|
    requires sp == Offset(es, i) && next == Offset(es, i + 1) < SECSIZE
    modifies p
    ensures Holds(p[..], es[..i] + es[i + 1..]) && WordSum(p[..]) % TWO16 == 0
  {
    hide Holds, Encode, WordSum;
    ghost var image, rest := p[..], es[..i] + es[i + 1..];
    assert sp <= next by { EncodeSplit(es, i); }
    MoveDown(p, sp, next);
    assert p[..][2..sp] == p[..sp][2..] == image[2..sp];
    Removed(image, p[..], es, i);
    if p[2] == 0 {
      HoldsEmpty(p[..], rest);
      ghost var cleared := p[..][3 := 0];
      p[3] := 0;
      assert p[..] == cleared;
    }
    ghost var moved := p[..];
    var _ := Cksum(p, true);
    assert p[..SECSIZE] == p[..];
    assert p[..][2..] == p[2..] == moved[2..];
    HoldsIgnoresChecksum(moved, p[..], rest);
  }

  /** What the longest entry can reach behind the buffer. */
  const BEHIND := 257

  /** The new entry and the final NUL find room behind the entries that stay. */
  ghost predicate Fits(es: seq<Entry>, name: CString, value: CString) {
    2 + |EncodeAll(Without(es, name))| + |name| + |value| + 3 <= SECSIZE
  }

  /** Lines 376-384: the position of the final NUL. */
  method FindEnd(p: array<Byte>, ghost es: seq<Entry>) returns (ep: nat)
    requires p.Length >= SECSIZE && Holds(p[..SECSIZE], es)
    ensures ep == Offset(es, |es|) < SECSIZE
  {
    hide Holds, Encode;
    ep := 2;
    ghost var image := p[..SECSIZE];
    assert forall x | 0 <= x < SECSIZE :: p[x] == image[x];
    FirstByte(image, es);
    if p[2] == 0 {
      EndAt(image, es);
      return;
    }
    ghost var i: nat := 0;
    while true
      invariant i < |es| && ep == Offset(es, i)
      decreases |es| - i
    {
      EntryBytes(image, es, i);
      ep := SkipString(p, ep, Offset(es, i + 1) - 1);
      i := i + 1;
      var c := p[ep];
      if i == |es| {
        EndAt(image, es);
      } else {
        EntryBytes(image, es, i);
      }
      if c == 0 {
        break;
      }
    }
  }

  /** Lines 391-404: write name=value and two NULs at ep, wherever that ends. */
  method WriteEntry(p: array<Byte>, ep: nat, name: CString, value: CString) returns (last: nat)
    requires ep + |name| + |value| + 3 <= p.Length
    modifies p
    ensures last == ep + |name| + |value| + 2
    ensures p[..last + 1] == old(p[..ep]) + name + [EQUALS] + value + [0] + [0]
    ensures p[last + 1..] == old(p[last + 1..])
  {
    ghost var before := p[..];
    ghost var size := ep + |name| + |value| + 3;
    var at := CopyString(p, ep, name);
    assert p[size..] == before[ep + |name|..][size - ep - |name|..];
    p[at] := EQUALS;
    assert p[size..] == before[size..];
    assert p[..at + 1] == before[..ep] + name + [EQUALS];
    ghost var middle := p[..];
    at := CopyString(p, at + 1, value);
    assert p[size..] == middle[size..];
    p[at] := 0;
    p[at + 1] := 0;
    last := at + 1;
    assert p[..at + 2] == before[..ep] + name + [EQUALS] + value + [0] + [0];
  }

  /** An entry that fits extends the image's list. */
  lemma EntryFits(before: seq<Byte>, after: seq<Byte>, es: seq<Entry>, name: CString, value: CString)
    requires Holds(before, es) && |after| == SECSIZE && Storable(name, value)
    requires forall i | 0 <= i < |es| :: es[i].name != name
    requires
      var o := Offset(es, |es|);
      o <= |before| && before[..o] + name + [EQUALS] + value + [0] + [0] <= after
    ensures Holds(after, es + [Entry(name, value)])
  {
    hide Encode, Holds;
    Appended(before, after, es, Entry(name, value));
  }

  /** Lines 391-394 and 398: copy the bytes of s. */
  method CopyString(p: array<Byte>, from: nat, s: CString) returns (ep: nat)
    requires from + |s| <= p.Length
    modifies p
    ensures ep == from + |s| && p[..ep] == old(p[..from]) + s && p[ep..] == old(p[ep..])
  {
    ep := from;
    ghost var head, was := p[..from], p[..];
    for k := 0 to |s|
      invariant ep == from + k && p[..ep] == head + s[..k]
      invariant forall x | ep <= x < p.Length :: p[x] == was[x]
    {
      p[ep] := s[k];
      assert p[..ep + 1] == p[..ep] + [s[k]];
      ep := ep + 1;
    }
    assert s[..|s|] == s;
  }

  lemma Appended(image: seq<Byte>, image': seq<Byte>, es: seq<Entry>, e: Entry)
    requires Holds(image, es) && |image'| == SECSIZE && Storable(e.name, e.value)
    requires forall i | 0 <= i < |es| :: es[i].name != e.name
    requires
      var o := Offset(es, |es|);
      o <= |image| && image[..o] + e.name + [EQUALS] + e.value + [0] + [0] <= image'
    ensures Holds(image', es + [e])
  {
    var all, o := EncodeAll(es), Offset(es, |es|);
    assert es[..|es|] == es;
    EncodeAllAppend(es, [e]);
    EncodeOne(e);
    hide EncodeAll;
    assert image[2..o] == all by {
      SliceOfPrefix(image, all, [0], []);
      assert all + [0] + [] == all + [0];
    }
    var text := image[..o] + e.name + [EQUALS] + e.value + [0] + [0];
    assert text == image[..2] + (all + Encode(e) + [0]);
    assert image'[2..][..|all + Encode(e) + [0]|] == text[2..] == all + Encode(e) + [0];
    hide Storable;
    assert WellFormed(es + [e]);
  }

  /** Without drops the name and nothing else. */
  lemma {:induction false} NamesWithout(es: seq<Entry>, name: CString)
    ensures forall i | 0 <= i < |Without(es, name)| :: Without(es, name)[i].name != name
  {
    if es != [] {
      NamesWithout(es[1..], name);
    }
  }

  // ---------------------------------------------------------------------------
  // The table, lines 159-208.

  type Vars = map<CString, Option<CString>>

  function UsedCount(table: seq<Slot>): nat {
    if table == [] then 0 else (if table[0].Used? then 1 else 0) + UsedCount(table[1..])
  }

  ghost predicate HasSlot(table: seq<Slot>, n: CString) {
    exists i :: 0 <= i < |table| && table[i].Used? && table[i].name == n
  }

  ghost predicate NamesDistinct(table: seq<Slot>) {
    forall i, j | 0 <= i < j < |table| && table[i].Used? && table[j].Used? :: table[i].name != table[j].name
  }

  ghost predicate ValuesAgree(table: seq<Slot>, m: Vars) {
    forall i | 0 <= i < |table| && table[i].Used? :: table[i].name in m && m[table[i].name] == table[i].value
  }

  /** The table holds exactly the variables of m, each in one slot. */
  ghost predicate Represents(table: seq<Slot>, m: Vars) {
    && |table| == NVAR && UsedCount(table) == |m|
    && NamesDistinct(table) && ValuesAgree(table, m) && forall n | n in m :: HasSlot(table, n)
  }

  lemma {:induction false} UsedCountUpdate(table: seq<Slot>, i: nat, s: Slot)
    requires i < |table| && s.Used?
    ensures UsedCount(table[i := s]) == UsedCount(table) + if table[i].Used? then 0 else 1
  {
    if i == 0 {
      assert table[0 := s][1..] == table[1..];
    } else {
      UsedCountUpdate(table[1..], i - 1, s);
      assert table[i := s][1..] == table[1..][i - 1 := s];
    }
  }

  lemma {:induction false} AllUsed(table: seq<Slot>)
    ensures UsedCount(table) <= |table|
    ensures UsedCount(table) == |table| <==> forall i | 0 <= i < |table| :: table[i].Used?
  {
    if table != [] {
      AllUsed(table[1..]);
      assert forall i | 1 <= i < |table| :: table[i] == table[1..][i - 1];
    }
  }

  /** Overwriting the slot of a name, or filling a free one. */
  lemma SlotWritten(table: seq<Slot>, m: Vars, i: nat, name: CString, value: Option<CString>)
    requires Represents(table, m) && i < |table|
    requires if name in m then table[i].Used? && table[i].name == name else table[i].Free?
    ensures Represents(table[i := Used(name, value)], m[name := value])
  {
    UsedCountUpdate(table, i, Used(name, value));
    var table', m' := table[i := Used(name, value)], m[name := value];
    assert NamesDistinct(table') && ValuesAgree(table', m') by {
      hide HasSlot;
    }
    forall n | n in m'
      ensures HasSlot(table', n)
    {
      SlotKept(table, m, i, name, value, n);
    }
    hide NamesDistinct, ValuesAgree, HasSlot;
  }

  lemma SlotKept(table: seq<Slot>, m: Vars, i: nat, name: CString, value: Option<CString>, n: CString)
    requires i < |table| && (table[i].Used? ==> table[i].name == name)
    requires n == name || HasSlot(table, n)
    ensures HasSlot(table[i := Used(name, value)], n)
  {
    var table' := table[i := Used(name, value)];
    if n == name {
      assert table'[i].Used?;
    } else {
      var j :| 0 <= j < |table| && table[j].Used? && table[j].name == n;
      assert table'[j] == table[j];
    }
  }

  /** Lines 165-171: the slot of a name, and the first free slot before it. */
  method FindSlot(table: seq<Slot>, name: CString) returns (found: Option<nat>, free: Option<nat>)
    ensures found.Some? ==> found.value < |table| && table[found.value].Used? && table[found.value].name == name
    ensures free.Some? ==> free.value < |table| && table[free.value].Free?
    ensures found.None? ==> forall i | 0 <= i < |table| && table[i].Used? :: table[i].name != name
    ensures found.None? && free.None? ==> forall i | 0 <= i < |table| :: table[i].Used?
  {
    free := None;
    for ep := 0 to |table|
      invariant forall i | 0 <= i < ep && table[i].Used? :: table[i].name != name
      invariant if free.Some? then free.value < ep && table[free.value].Free? else forall i | 0 <= i < ep :: table[i].Used?
    {
      if table[ep].Free? && free.None? {
        free := Some(ep);
      } else if table[ep].Used? && table[ep].name == name {
        return Some(ep), free;
      }
    }
    return None, free;
  }

  lemma SlotCount(table: seq<Slot>, m: Vars)
    requires Represents(table, m)
    ensures |table| == NVAR && |m| <= NVAR
  {
    AllUsed(table);
  }

  /** What the search means for the variables. */
  lemma SlotFound(table: seq<Slot>, m: Vars, name: CString, found: Option<nat>, free: Option<nat>)
    requires Represents(table, m)
    requires found.Some? ==> found.value < |table| && table[found.value].Used? && table[found.value].name == name
    requires free.Some? ==> free.value < |table| && table[free.value].Free?
    requires found.None? ==> forall i | 0 <= i < |table| && table[i].Used? :: table[i].name != name
    requires found.None? && free.None? ==> forall i | 0 <= i < |table| :: table[i].Used?
    ensures name in m <==> found.Some?
    ensures found.None? ==> (free.Some? <==> |m| < NVAR)
  {
    hide NamesDistinct;
    AllUsed(table);
    if name in m {
      assert HasSlot(table, name);
    }
  }

  predicate HasRoom(m: Vars, name: CString) {
    name in m || |m| < NVAR
  }

  // ---------------------------------------------------------------------------
  // Reading an image back, lines 519-542.

  datatype Raw = Raw(name: CString, value: Option<CString>)

  datatype Parsed = Parsed(raws: seq<Raw>, ok: bool)

  /** How many bytes lie before the next NUL, or before the end of the image. */
  function Length(image: seq<Byte>, e: nat): (n: nat)
    requires e <= |image|
    ensures e + n <= |image| && 0 !in image[e..e + n]
    ensures e + n < |image| ==> image[e + n] == 0
    decreases |image| - e
  {
    if e == |image| || image[e] == 0 then 0
    else
      var n := Length(image, e + 1);
      assert image[e..e + 1 + n] == [image[e]] + image[e + 1..e + 1 + n];
      1 + n
  }

  /** A string cut at its first '='. */
  function Split(s: CString): (r: Raw)
    ensures r.value.Some? ==> s == r.name + [EQUALS] + r.value.value
    ensures r.value.None? ==> s == r.name
    ensures EQUALS !in r.name
  {
    if s == [] then Raw([], None)
    else if s[0] == EQUALS then Raw([], Some(s[1..]))
    else
      var r := Split(s[1..]);
      assert s == [s[0]] + s[1..];
      Raw([s[0]] + r.name, r.value)
  }

  /** The entries from position e on; an entry of 255 bytes or more, or one that reaches the end, stops the scan. */
  function ParseFrom(image: seq<Byte>, e: nat): Parsed
    requires |image| == SECSIZE && e < |image|
    decreases |image| - e
  {
    if image[e] == 0 then Parsed([], true)
    else
      var n := Length(image, e);
      if e + n + 1 <= SECSIZE - 1 && n < 255 then
        var rest := ParseFrom(image, e + n + 1);
        Parsed([Split(image[e..e + n])] + rest.raws, rest.ok)
      else Parsed([], false)
  }

  /** Lines 521-530: one entry copied out, cut at the first '='. */
  method ReadEntry(nvram: seq<Byte>, from: nat) returns (ep: nat, i: nat, raw: Raw)
    requires |nvram| == SECSIZE && from < SECSIZE && nvram[from] != 0
    ensures from < ep <= SECSIZE
    ensures
      var n := Length(nvram, from);
      ep <= SECSIZE - 1 && i < 255 <==> from + n + 1 <= SECSIZE - 1 && n < 255
    ensures ep <= SECSIZE - 1 && i < 255 ==> ep == from + Length(nvram, from) + 1 && raw == Split(nvram[from..ep - 1])
  {
    hide Split, Length;
    var text: CString := [];
    var mark: Option<nat> := None;
    ep, i := from, 0;
    var c := nvram[ep];
    ep := ep + 1;
    while c != 0 && ep <= SECSIZE - 1 && i < 255
      invariant from < ep <= SECSIZE && c == nvram[ep - 1] && i == ep - 1 - from <= 255
      invariant text == nvram[from..from + i]
      invariant mark.Some? ==> mark.value < |text| && text[mark.value] == EQUALS && EQUALS !in text[..mark.value]
      invariant mark.None? ==> EQUALS !in text
      decreases SECSIZE - ep
    {
      if c == EQUALS && mark.None? {
        mark := Some(|text|);
      }
      text := text + [c];
      i := i + 1;
      c := nvram[ep];
      ep := ep + 1;
    }
    LengthReached(nvram, from, i);
    if c != 0 && ep <= SECSIZE - 1 {
      i := i + 1;  // the test of line 523 counts the byte it rejects
    }
    match mark
    case None => raw := Raw(text, None);
    case Some(k) => raw := Raw(text[..k], Some(text[k + 1..]));
    SplitUnique(text, raw);
  }

  /** k bytes without a NUL: the string ends there or is longer. */
  lemma {:induction false} LengthReached(image: seq<Byte>, e: nat, k: nat)
    requires e + k < |image| && 0 !in image[e..e + k]
    ensures if image[e + k] == 0 then Length(image, e) == k else Length(image, e) > k
    decreases k
  {
    if k > 0 {
      assert image[e..e + k] == [image[e]] + image[e + 1..e + k];
      LengthReached(image, e + 1, k - 1);
    }
  }

  /** The name before the first '=' and what follows it determine the split. */
  lemma {:induction false} SplitUnique(s: CString, r: Raw)
    requires EQUALS !in r.name
    requires if r.value.Some? then s == r.name + [EQUALS] + r.value.value else s == r.name
    ensures r == Split(s)
  {
    if r.name == [] {
      if r.value.Some? {
        assert s[1..] == r.value.value;
      }
    } else {
      assert s[0] == r.name[0];
      assert s[1..] == if r.value.Some? then r.name[1..] + [EQUALS] + r.value.value else r.name[1..];
      SplitUnique(s[1..], Raw(r.name[1..], r.value));
    }
  }

  // ---------------------------------------------------------------------------
  // What images and tables mean.

  function EntriesMap(es: seq<Entry>): Vars {
    if es == [] then map[] else map[es[0].name := Some(es[0].value)] + EntriesMap(es[1..])
  }

  /** set_mem_env as a map update; a new name is dropped when all slots are taken. */
  function Put(m: Vars, r: Raw): Vars {
    if HasRoom(m, r.name) then m[r.name := r.value] else m
  }

  function Load(m: Vars, raws: seq<Raw>): Vars
    decreases raws
  {
    if raws == [] then m else Load(Put(m, raws[0]), raws[1..])
  }

  function AsRaw(es: seq<Entry>): (rs: seq<Raw>)
    ensures |rs| == |es|
  {
    if es == [] then [] else [Raw(es[0].name, Some(es[0].value))] + AsRaw(es[1..])
  }

  lemma {:induction false} MapWithout(es: seq<Entry>, name: CString)
    ensures EntriesMap(Without(es, name)) == EntriesMap(es) - {name}
  {
    if es != [] {
      MapWithout(es[1..], name);
      var rest := Without(es[1..], name);
      if es[0].name != name {
        assert ([es[0]] + rest)[1..] == rest;
      }
    }
  }

  lemma {:induction false} MapAppend(es: seq<Entry>, e: Entry)
    ensures EntriesMap(es + [e]) == EntriesMap(es)[e.name := Some(e.value)]
  {
    if es == [] {
      assert es + [e] == [e] && [e][1..] == [];
      assert EntriesMap([e]) == map[e.name := Some(e.value)] + map[];
    } else {
      MapAppend(es[1..], e);
      assert (es + [e])[1..] == es[1..] + [e];
    }
  }

  /** Replacing an entry in the image is an update of its map. */
  lemma MapReplaced(es: seq<Entry>, name: CString, value: CString)
    ensures EntriesMap(Without(es, name) + [Entry(name, value)]) == EntriesMap(es)[name := Some(value)]
  {
    MapWithout(es, name);
    MapAppend(Without(es, name), Entry(name, value));
  }

  /** Everything in the map can be stored. */
  lemma {:induction false} MapStorable(es: seq<Entry>)
    requires forall i | 0 <= i < |es| :: Storable(es[i].name, es[i].value)
    ensures forall n | n in EntriesMap(es) :: EntriesMap(es)[n].Some? && Storable(n, EntriesMap(es)[n].value)
  {
    if es != [] {
      MapStorable(es[1..]);
    }
  }

  lemma {:induction false} NotInMap(es: seq<Entry>, name: CString)
    requires forall i | 0 <= i < |es| :: es[i].name != name
    ensures name !in EntriesMap(es)
  {
    if es != [] {
      NotInMap(es[1..], name);
    }
  }

  /** Distinct names: one entry of the map each. */
  lemma {:induction false} MapSize(es: seq<Entry>)
    requires forall i, j | 0 <= i < j < |es| :: es[i].name != es[j].name
    ensures |EntriesMap(es)| == |es|
  {
    if es != [] {
      MapSize(es[1..]);
      NotInMap(es[1..], es[0].name);
      assert EntriesMap(es) == EntriesMap(es[1..])[es[0].name := Some(es[0].value)];
    }
  }

  /** Loading entries with distinct names, while there are slots, gives their map. */
  lemma {:induction false} LoadEntries(m: Vars, es: seq<Entry>)
    requires |m| + |es| <= NVAR
    ensures Load(m, AsRaw(es)) == m + EntriesMap(es)
    decreases es
  {
    if es != [] {
      var m' := m[es[0].name := Some(es[0].value)];
      assert AsRaw(es)[1..] == AsRaw(es[1..]);
      assert Put(m, AsRaw(es)[0]) == m';
      LoadEntries(m', es[1..]);
      MergeUpdate(m, es[0].name, Some(es[0].value), EntriesMap(es[1..]));
    }
  }

  lemma MergeUpdate(m: Vars, n: CString, v: Option<CString>, rest: Vars)
    ensures m[n := v] + rest == m + (map[n := v] + rest)
  {
  }

  /** Scanning an image from entry i on finds exactly the entries that follow. */
  lemma {:induction false} ParseEntries(image: seq<Byte>, es: seq<Entry>, i: nat)
    requires Holds(image, es) && i <= |es| && Offset(es, i) < SECSIZE
    ensures ParseFrom(image, Offset(es, i)) == Parsed(AsRaw(es[i..]), true)
    decreases |es| - i
  {
    hide Holds, Encode, EncodeAll;
    if i == |es| {
      EndAt(image, es);
    } else {
      EntryBytes(image, es, i);
      var o, e := Offset(es, i), es[i];
      var n := |e.name| + 1 + |e.value|;
      EntryText(image, es, i);
      StorableAt(image, es, i);
      SplitUnique(image[o..o + n], Raw(e.name, Some(e.value)));
      LengthReached(image, o, n);
      ParseEntries(image, es, i + 1);
      assert es[i..][1..] == es[i + 1..] && es[i..][0] == e;
      NextFits(image, es, i);
    }
  }

  lemma StorableAt(image: seq<Byte>, es: seq<Entry>, i: nat)
    requires Holds(image, es) && i < |es|
    ensures Storable(es[i].name, es[i].value) && |image| == SECSIZE
  {
  }

  lemma EntryText(image: seq<Byte>, es: seq<Entry>, i: nat)
    requires Holds(image, es) && i < |es|
    ensures
      var o, e := Offset(es, i), es[i];
      var n := |e.name| + 1 + |e.value|;
      o + n < SECSIZE && image[o..o + n] == e.name + [EQUALS] + e.value && 0 !in image[o..o + n]
  {
    EntryAt(image, es, i);
    var o, e := Offset(es, i), es[i];
    var n := |e.name| + 1 + |e.value|;
    assert image[o..o + n] == image[o..o + n + 1][..n] == Encode(e)[..n];
    assert Encode(e)[..n] == e.name + [EQUALS] + e.value;
  }

  /** Behind every entry there is at least the final NUL. */
  lemma NextFits(image: seq<Byte>, es: seq<Entry>, i: nat)
    requires Holds(image, es) && i < |es|
    ensures Offset(es, i + 1) <= SECSIZE - 1
  {
    hide Holds, Encode, EncodeAll;
    EntryAt(image, es, i);
  }

  /** An image read into an empty table gives the map of its entries. */
  lemma ReloadGivesMap(image: seq<Byte>, es: seq<Entry>)
    requires Holds(image, es) && |es| <= NVAR
    ensures ParseFrom(image, 2).ok
    ensures Load(map[], ParseFrom(image, 2).raws) == EntriesMap(es)
  {
    hide Holds, Encode;
    assert es[..0] == [] && es[0..] == es;
    assert Offset(es, 0) == 2;
    ParseEntries(image, es, 0);
    LoadEntries(map[], es);
    assert map[] + EntriesMap(es) == EntriesMap(es);
  }

  /** A pair is read back as it was stored exactly when its name does not contain '='. */
  lemma ReadsBack(name: CString, value: CString)
    ensures Split(name + [EQUALS] + value) == Raw(name, Some(value)) <==> EQUALS !in name
  {
    if EQUALS !in name {
      SplitUnique(name + [EQUALS] + value, Raw(name, Some(value)));
    }
  }

  // ---------------------------------------------------------------------------
  // The environment: flash and table together.

  const MAC_NAME: CString := [101, 116, 104, 97, 100, 100, 114]  // "ethaddr"

  class Store {
    var flash: seq<Byte>
    var table: seq<Slot>
    var invalid: int
    const macOk: CString -> bool
    ghost var entries: seq<Entry>
    ghost var vars: Vars

    /** The flash holds the entries under a valid checksum. */
    ghost predicate Stored()
      reads this
    {
      Holds(flash, entries) && WordSum(flash) % TWO16 == 0
    }

    ghost predicate Valid()
      reads this
    {
      Stored() && invalid == 0 && Represents(table, vars)
    }

    /** Table and flash agree. */
    ghost predicate Consistent()
      reads this
    {
      vars == EntriesMap(entries)
    }

    /** A board with this flash content, before map_rom_env. */
    constructor (image: seq<Byte>, macOk: CString -> bool)
      requires |image| == SECSIZE
      ensures flash == image && Represents(table, vars) && vars == map[] && invalid == 0
    {
      this.macOk := macOk;
      flash, table, invalid, entries, vars := image, seq(NVAR, _ => Free), 0, [], map[];
      new;
      NoneUsed(table);
    }

    /** unset_rom_env, lines 281-336. */
    method UnsetRom(name: CString) returns (status: int)
      requires Stored() && EQUALS !in name
      modifies `flash, `entries
      ensures Stored() && entries == Without(old(entries), name)
      ensures status == if entries == old(entries) then 0 else 1
    {
      hide WordSum, Encode, Holds, EncodeAll;
      ghost var es := entries;
      HoldsBasics(flash, es);
      var image := flash;
      var p := new Byte[SECSIZE](i requires 0 <= i < SECSIZE && |image| == SECSIZE => image[i]);
      assert p[..] == image;
      var ep := 2;
      ghost var i: nat := 0;
      while p[ep] != 0 && ep < SECSIZE
        invariant i <= |es| && ep == Offset(es, i) < SECSIZE && p[..] == image == flash
        invariant forall j | 0 <= j < i :: es[j].name != name
        invariant Stored() && entries == es
        decreases |es| - i
      {
        if i == |es| {
          EndAt(image, es);
          assert false;
        }
        EntryBytes(image, es, i);
        var sp := ep;
        var found;
        ep, found := NameAt(p, sp, name, es[i]);
        ep := SkipString(p, ep, Offset(es, i + 1) - 1);
        if found {
          DeleteAt(p, sp, ep, es, i);
          WithoutAt(es, i);
          flash := p[..];
          entries := Without(es, name);
          return 1;
        }
        i := i + 1;
      }
      if i < |es| {
        EntryBytes(image, es, i);
        assert false;
      }
      WithoutAbsent(es, name);
      return 0;
    }

    /**
     set_rom_env, lines 339-488, for any pair. The buffer is followed by memory that belongs to
     others. The free-space test of line 385 is there, but ep cancels out of it; `overrun` says
     whether bytes behind the buffer were written, which happens exactly when the entry does not fit.
     */
    method SetRom(name: CString, value: CString) returns (r: int, overrun: bool)
      requires (invalid == 0 ==> Stored()) && EQUALS !in name
      modifies `flash, `entries, `invalid
      ensures r == if Storable(name, value) then 1 else 0
      ensures overrun <==> Storable(name, value) && !Fits(if old(invalid) == 0 then old(entries) else [], name, value)
      ensures r == 0 ==> flash == old(flash) && entries == old(entries) && invalid == old(invalid)
      ensures r == 1 && !overrun ==> Stored() && invalid == 0
      ensures r == 1 && !overrun ==> entries == Without(if old(invalid) == 0 then old(entries) else [], name) + [Entry(name, value)]
    {
      hide WordSum, Encode, Holds;
      overrun := false;
      if |name| == 0 || |name| + |value| + 2 > 255 {
        return 0, false;
      }
      if invalid != 0 {
        Reset();
      }
      ghost var es := entries;
      var _ := UnsetRom(name);
      ghost var rest := entries;
      NamesWithout(es, name);
      HoldsBasics(flash, rest);
      assert rest[..|rest|] == rest;
      var image := flash;
      var p := new Byte[SECSIZE + BEHIND](i requires 0 <= i < SECSIZE + BEHIND && |image| == SECSIZE => if i < SECSIZE then image[i] else 0);
      assert p[..SECSIZE] == image;
      var ep := FindEnd(p, rest);
      var full := ep + SECSIZE - ep < |name| + |value| + 2 + 1;
      r := 0;
      if !full {
        assert p[..ep] == p[..SECSIZE][..ep] == image[..ep];
        var last := WriteEntry(p, ep, name, value);
        overrun := last >= SECSIZE;
        ghost var written := p[..];
        var _ := Cksum(p, true);
        flash := p[..SECSIZE];
        entries := rest + [Entry(name, value)];
        assert Fits(es, name, value) <==> last < SECSIZE;
        if !overrun {
          assert written[..SECSIZE][..last + 1] == written[..last + 1];
          assert flash[2..] == p[2..][..SECSIZE - 2] == written[..SECSIZE][2..];
          EntryFits(image, written[..SECSIZE], rest, name, value);
          HoldsIgnoresChecksum(written[..SECSIZE], flash, entries);
        }
        r := 1;
      }
    }

    /** set_mem_env, lines 159-208; allocations succeed. */
    method SetMem(name: CString, value: Option<CString>) returns (r: int)
      requires Represents(table, vars)
      modifies `table, `vars
      ensures Represents(table, vars) && vars == Put(old(vars), Raw(name, value))
      ensures r == if HasRoom(old(vars), name) then 1 else 0
    {
      hide Represents;
      assert |table| == NVAR by { SlotCount(table, vars); }
      var ep, bp := FindSlot(table, name);
      SlotFound(table, vars, name, ep, bp);
      if ep == None && bp == None {
        return 0;
      }
      var slot := if ep == None then bp.value else ep.value;
      SlotWritten(table, vars, slot, name, value);
      table := table[slot := Used(name, value)];
      vars := vars[name := value];
      return 1;
    }

    /** resetNorEnvSpace, lines 248-278: an image without entries. */
    method Reset()
      requires invalid != 0
      modifies `flash, `entries, `invalid
      ensures Stored() && entries == [] && invalid == 0
    {
      var p := new Byte[SECSIZE](_ => 0xff);
      p[2], p[3] := 0, 0;
      ghost var blank := p[..];
      var _ := Cksum(p, true);
      assert p[..SECSIZE] == p[..];
      assert p[..][2..] == p[2..] == blank[2..];
      HoldsIgnoresChecksum(blank, p[..], []);
      flash, entries, invalid := p[..], [], 0;
    }

    /** map_rom_env, lines 490-584, for any flash content; es are its entries if it is well-formed. */
    method MapRom(ghost es: seq<Entry>)
      requires |flash| == SECSIZE && invalid == 0 && Represents(table, vars)
      modifies this
      ensures Represents(table, vars)
      ensures old(WordSum(flash)) % TWO16 != 0 ==> Valid() && entries == [] && vars == old(vars)
      ensures old(WordSum(flash)) % TWO16 == 0 ==>
                && flash == old(flash)
                && vars == Load(old(vars), ParseFrom(flash, 2).raws)
                && invalid == (if ParseFrom(flash, 2).ok then 0 else 2)
      ensures old(WordSum(flash)) % TWO16 == 0 && Holds(old(flash), es) && |es| <= NVAR && old(vars) == map[] ==>
                Valid() && entries == es && Consistent()
    {
      hide WordSum, Holds, NamesDistinct, Represents;
      var nvram := flash;
      var p := new Byte[SECSIZE](i requires 0 <= i < SECSIZE && |nvram| == SECSIZE => nvram[i]);
      assert p[..] == nvram;
      assert p[..SECSIZE] == p[..];
      var sum := Cksum(p, false);
      if sum != 0 {
        invalid := 1;
        Reset();
        return;
      }
      LoadImage(nvram);
      if Holds(nvram, es) && |es| <= NVAR {
        ReloadGivesMap(nvram, es);
        entries := es;
      }
    }

    /** Lines 518-542: every entry of the image goes into the table. */
    method LoadImage(nvram: seq<Byte>)
      requires |nvram| == SECSIZE && invalid == 0 && Represents(table, vars)
      modifies `table, `vars, `invalid
      ensures Represents(table, vars) && vars == Load(old(vars), ParseFrom(nvram, 2).raws)
      ensures invalid == if ParseFrom(nvram, 2).ok then 0 else 2
    {
      hide Represents, Put, Split;
      var ep := 2;
      ghost var all := ParseFrom(nvram, 2);
      while nvram[ep] != 0
        invariant ep < SECSIZE && Represents(table, vars) && invalid == 0
        invariant all.ok == ParseFrom(nvram, ep).ok
        invariant Load(old(vars), all.raws) == Load(vars, ParseFrom(nvram, ep).raws)
        decreases SECSIZE - ep
      {
        var next, i, raw := ReadEntry(nvram, ep);
        if next <= SECSIZE - 1 && i < 255 {
          var _ := SetMem(raw.name, raw.value);
          assert ParseFrom(nvram, ep).raws[1..] == ParseFrom(nvram, next).raws;
          ep := next;
        } else {
          invalid := 2;
          break;
        }
      }
    }

    /**
     do_setenv, lines 666-675. Afterwards table and flash still agree exactly if both stored the
     pair or neither did.
     */
    method DoSetenv(name: CString, value: CString) returns (overrun: bool)
      requires Valid() && EQUALS !in name
      modifies this
      ensures overrun <==> !(name == MAC_NAME && !macOk(value)) && Storable(name, value) && !Fits(old(entries), name, value)
      ensures !overrun ==> Valid()
      ensures name == MAC_NAME && !macOk(value) ==> entries == old(entries) && vars == old(vars)
      ensures !(name == MAC_NAME && !macOk(value)) && !overrun ==>
                && entries == (if Storable(name, value) then Without(old(entries), name) + [Entry(name, value)] else old(entries))
                && vars == Put(old(vars), Raw(name, Some(value)))
                && EntriesMap(entries) == (if Storable(name, value) then EntriesMap(old(entries))[name := Some(value)]
                                           else EntriesMap(old(entries)))
                && (old(Consistent()) ==> (Consistent() <==> (HasRoom(old(vars), name) <==> Storable(name, value))))
    {
      hide WordSum, NamesDistinct, Represents, Encode;
      if name == MAC_NAME && !macOk(value) {
        return false;
      }
      ghost var es := entries;
      assert forall i | 0 <= i < |es| :: Storable(es[i].name, es[i].value);
      MapStorable(es);
      var _ := SetMem(name, Some(value));
      var stored;
      stored, overrun := SetRom(name, value);
      MapReplaced(es, name, value);
    }

    /** Power off and on: the table is rebuilt from flash alone. */
    method Reboot()
      requires Valid() && Consistent()
      modifies this
      ensures Valid() && Consistent() && vars == old(vars) && entries == old(entries)
    {
      ghost var es := entries;
      assert |es| <= NVAR by {
        MapSize(es);
        AllUsed(table);
      }
      table, vars := seq(NVAR, _ => Free), map[];
      NoneUsed(table);
      MapRom(es);
    }

    /** Any sequence of settings within the limits survives a reboot. */
    method Session(calls: seq<Entry>)
      requires Valid() && Consistent() && Within(entries, calls)
      requires forall e | e in calls :: e.name != MAC_NAME || macOk(e.value)
      modifies this
      ensures Valid() && Consistent() && vars == ApplyAll(old(vars), calls)
    {
      hide WordSum, NamesDistinct, Represents, Encode, Holds, Fits;
      for k := 0 to |calls|
        invariant Valid() && Consistent() && Within(entries, calls[k..])
        invariant ApplyAll(vars, calls[k..]) == ApplyAll(old(vars), calls)
      {
        var e := calls[k];
        assert calls[k..][0] == e && calls[k..][1..] == calls[k + 1..];
        assert e in calls;
        var _ := DoSetenv(e.name, e.value);
      }
      Reboot();
    }
  }

  /** The limits of a session: every pair storable, room in flash and in the table. */
  ghost predicate Within(es: seq<Entry>, calls: seq<Entry>)
    decreases calls
  {
    calls == [] ||
    var e := calls[0];
    && Storable(e.name, e.value) && Fits(es, e.name, e.value) && HasRoom(EntriesMap(es), e.name)
    && Within(Without(es, e.name) + [e], calls[1..])
  }

  function ApplyAll(m: Vars, calls: seq<Entry>): Vars
    decreases calls
  {
    if calls == [] then m else ApplyAll(m[calls[0].name := Some(calls[0].value)], calls[1..])
  }

  lemma NoneUsed(table: seq<Slot>)
    requires |table| == NVAR && forall i | 0 <= i < |table| :: table[i].Free?
    ensures Represents(table, map[])
  {
    NoneUsedCount(table);
  }

  lemma {:induction false} NoneUsedCount(table: seq<Slot>)
    requires forall i | 0 <= i < |table| :: table[i].Free?
    ensures UsedCount(table) == 0
  {
    if table != [] {
      NoneUsedCount(table[1..]);
    }
  }

  // ---------------------------------------------------------------------------
  // A session that runs over the end of the buffer.

  function Letter(i: nat): CString
    requires i < 26
  {
    [65 + i]
  }

  /** The longest value a one-letter name can have. */
  function LongValue(n: nat): (v: CString)
    ensures |v| == n
  {
    seq(n, _ => 120)
  }

  /** The first k letters, each with a value that makes the entry 255 bytes long. */
  function Letters(k: nat): seq<Entry>
    requires k <= 26
  {
    if k == 0 then [] else Letters(k - 1) + [Entry(Letter(k - 1), LongValue(252))]
  }

  lemma {:induction false} LettersSize(k: nat)
    requires k <= 26
    ensures |EncodeAll(Letters(k))| == 255 * k
    ensures forall i | 0 <= i < |Letters(k)| :: |Letters(k)[i].name| == 1 && Letters(k)[i].name[0] < 65 + k
  {
    if k > 0 {
      LettersSize(k - 1);
      EncodeAllAppend(Letters(k - 1), [Entry(Letter(k - 1), LongValue(252))]);
      EncodeOne(Entry(Letter(k - 1), LongValue(252)));
    }
  }

  /** The k-th letter is new, and the first sixteen fit. */
  lemma NextLetter(k: nat)
    requires k < 26
    ensures Without(Letters(k), Letter(k)) == Letters(k)
    ensures Storable(Letter(k), LongValue(252)) && (Fits(Letters(k), Letter(k), LongValue(252)) <==> k < 16)
  {
    LettersSize(k);
    WithoutAbsent(Letters(k), Letter(k));
  }

  /**
   From an empty environment, sixteen settings of the longest entries fill the image; the next one,
   however it looks to the free-space test, is written past the end of the buffer.
   */
  method FillUp(macOk: CString -> bool) returns (overruns: seq<bool>)
    ensures |overruns| == 17 && overruns[16] && forall k | 0 <= k < 16 :: !overruns[k]
  {
    hide Storable, Fits, Represents, Holds, WordSum, EntriesMap, Put, HasRoom, ParseFrom, Load, LongValue, Letter;
    var blank := seq(SECSIZE, _ => 0);
    BlankHolds(blank);
    var s := new Store(blank, macOk);
    s.MapRom([]);
    overruns := [];
    for k := 0 to 17
      invariant |overruns| == k && (forall j | 0 <= j < k :: overruns[j] <==> j == 16)
      invariant k <= 16 ==> s.Valid() && s.entries == Letters(k)
      invariant fresh(s)
    {
      NextLetter(k);
      var o := s.DoSetenv(Letter(k), LongValue(252));
      overruns := overruns + [o];
    }
  }

  lemma BlankHolds(image: seq<Byte>)
    requires |image| == SECSIZE && forall i | 0 <= i < SECSIZE :: image[i] == 0
    ensures Holds(image, [])
  {
    assert image[2..][..1] == [0];
  }
}
