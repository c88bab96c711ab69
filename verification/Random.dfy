/** internal/random: the Fisher-Yates shuffle and the layout of UUID strings.

    The random source is the sequence of values it hands out: `choices[i]` is
    what IntN(i + 1) answers when position i is settled. Position 0 is never
    drawn for, so its entry is fixed at 0.
 */
module Random {

  ghost predicate Choices(n: nat, choices: seq<nat>) {
    |choices| == n && forall i :: 0 <= i < n ==> choices[i] <= i
  }

  ghost predicate Distinct<T>(s: seq<T>) {
    forall i, j :: 0 <= i < j < |s| ==> s[i] != s[j]
  }

  function Swap<T>(s: seq<T>, i: nat, j: nat): seq<T>
    requires i < |s| && j < |s|
  {
    s[i := s[j]][j := s[i]]
  }

  /** Settles positions `i`, `i - 1`, ..., 1 in that order. */
  function Settle<T>(s: seq<T>, i: nat, choices: seq<nat>): (r: seq<T>)
    requires Choices(|s|, choices) && (s == [] || i < |s|)
    ensures |r| == |s|
    decreases i
  {
    if s == [] || i == 0 then s else Settle(Swap(s, i, choices[i]), i - 1, choices)
  }

  function Shuffled<T>(items: seq<T>, choices: seq<nat>): seq<T>
    requires Choices(|items|, choices)
  {
    Settle(items, if items == [] then 0 else |items| - 1, choices)
  }

  /** A settled position keeps its element. */
  lemma {:induction false} SettledStays<T>(s: seq<T>, i: nat, choices: seq<nat>)
    requires Choices(|s|, choices) && i < |s|
    ensures Settle(s, i, choices)[i + 1..] == s[i + 1..]
    ensures 0 < i ==> Settle(s, i, choices)[i] == s[choices[i]]
    decreases i
  {
    if 0 < i {
      var next := Swap(s, i, choices[i]);
      SettledStays(next, i - 1, choices);
      assert Settle(s, i, choices)[i..] == next[i..];
      assert next[i..][1..] == next[i + 1..] == s[i + 1..];
      assert Settle(s, i, choices)[i] == Settle(s, i, choices)[i..][0];
    }
  }

  lemma SwapPermutes<T>(s: seq<T>, i: nat, j: nat)
    requires i < |s| && j < |s|
    ensures multiset(Swap(s, i, j)) == multiset(s)
  {
  }

  lemma {:induction false} SettlePermutes<T>(s: seq<T>, i: nat, choices: seq<nat>)
    requires Choices(|s|, choices) && (s == [] || i < |s|)
    ensures multiset(Settle(s, i, choices)) == multiset(s)
    decreases i
  {
    if s != [] && 0 < i {
      SwapPermutes(s, i, choices[i]);
      SettlePermutes(Swap(s, i, choices[i]), i - 1, choices);
    }
  }

  lemma {:induction false} SettleInjective<T>(s: seq<T>, i: nat, a: seq<nat>, b: seq<nat>)
    requires Choices(|s|, a) && Choices(|s|, b) && i < |s| && Distinct(s)
    requires Settle(s, i, a) == Settle(s, i, b)
    ensures a[..i + 1] == b[..i + 1]
    decreases i
  {
    if 0 < i {
      SettledStays(s, i, a);
      SettledStays(s, i, b);
      assert a[i] == b[i];
      SettleInjective(Swap(s, i, a[i]), i - 1, a, b);
      assert a[..i + 1] == a[..i] + [a[i]] && b[..i + 1] == b[..i] + [b[i]];
    }
  }

  /** When only the first `i + 1` positions are unsettled, the element wanted at
      position `i` is among them. */
  lemma WantedIsUnsettled<T>(s: seq<T>, i: nat, target: seq<T>) returns (j: nat)
    requires multiset(s) == multiset(target) && |s| == |target| && i < |s|
    requires s[i + 1..] == target[i + 1..]
    ensures j <= i && s[j] == target[i]
  {
    assert s == s[..i + 1] + s[i + 1..] && target == target[..i + 1] + target[i + 1..];
    assert multiset(s[..i + 1]) == multiset(s) - multiset(s[i + 1..]);
    assert multiset(target[..i + 1]) == multiset(target) - multiset(target[i + 1..]);
    assert target[..i + 1][i] in multiset(s[..i + 1]);
    var k :| 0 <= k <= i && s[..i + 1][k] == target[i];
    j := k;
  }

  lemma {:induction false} SettleSurjective<T>(s: seq<T>, i: nat, target: seq<T>) returns (choices: seq<nat>)
    requires multiset(s) == multiset(target) && |s| == |target| && i < |s|
    requires s[i + 1..] == target[i + 1..]
    ensures Choices(|s|, choices) && Settle(s, i, choices) == target
    decreases i
  {
    var j := WantedIsUnsettled(s, i, target);
    if i == 0 {
      choices := seq(|s|, _ => 0);
      AllSettled(s, target, choices);
    } else {
      var next := Swap(s, i, j);
      SwapPermutes(s, i, j);
      TailSettled(s, i, j, target);
      var rest := SettleSurjective(next, i - 1, target);
      choices := rest[i := j];
      SettleFirst(s, i, j, rest);
    }
  }

  lemma AllSettled<T>(s: seq<T>, target: seq<T>, choices: seq<nat>)
    requires |s| == |target| && s != [] && s[0] == target[0] && s[1..] == target[1..] && Choices(|s|, choices)
    ensures Settle(s, 0, choices) == target
  {
    assert s == [s[0]] + s[1..] && target == [target[0]] + target[1..];
  }

  /** Settling position `i` from `j` and then the rest. */
  lemma SettleFirst<T>(s: seq<T>, i: nat, j: nat, rest: seq<nat>)
    requires 0 < i < |s| && j <= i && Choices(|s|, rest)
    ensures Choices(|s|, rest[i := j]) && Settle(s, i, rest[i := j]) == Settle(Swap(s, i, j), i - 1, rest)
  {
    assert rest[i := j][..i] == rest[..i];
    SettleIgnores(Swap(s, i, j), i - 1, rest, rest[i := j]);
  }

  lemma TailSettled<T>(s: seq<T>, i: nat, j: nat, target: seq<T>)
    requires |s| == |target| && i < |s| && j <= i && s[j] == target[i] && s[i + 1..] == target[i + 1..]
    ensures Swap(s, i, j)[i..] == target[i..]
  {
    assert Swap(s, i, j)[i..] == [target[i]] + s[i + 1..];
    assert target[i..] == [target[i]] + target[i + 1..];
  }

  /** Settling up to `i` does not look at choices above `i`. */
  lemma {:induction false} SettleIgnores<T>(s: seq<T>, i: nat, a: seq<nat>, b: seq<nat>)
    requires Choices(|s|, a) && Choices(|s|, b) && i < |s| && a[..i + 1] == b[..i + 1]
    ensures Settle(s, i, a) == Settle(s, i, b)
    decreases i
  {
    if 0 < i {
      assert a[i] == a[..i + 1][i] == b[i];
      assert a[..i] == a[..i + 1][..i] == b[..i];
      SettleIgnores(Swap(s, i, a[i]), i - 1, a, b);
    }
  }

  lemma ShufflePermutes<T>(items: seq<T>, choices: seq<nat>)
    requires Choices(|items|, choices)
    ensures multiset(Shuffled(items, choices)) == multiset(items)
  {
    SettlePermutes(items, if items == [] then 0 else |items| - 1, choices);
  }

  /** Choice sequences and permutations are in bijection: on items without
      duplicates every rearrangement is the result of exactly one sequence of
      choices. */
  lemma ShuffleIsABijection<T>(items: seq<T>, target: seq<T>) returns (choices: seq<nat>)
    requires Distinct(items) && multiset(target) == multiset(items)
    ensures Choices(|items|, choices) && Shuffled(items, choices) == target
    ensures forall other :: Choices(|items|, other) && Shuffled(items, other) == target ==> other == choices
  {
    assert |target| == |multiset(target)| == |items|;
    if items == [] {
      choices := [];
    } else {
      var n := |items|;
      choices := SettleSurjective(items, n - 1, target);
      forall other | Choices(n, other) && Shuffled(items, other) == target ensures other == choices {
        SettleInjective(items, n - 1, choices, other);
        assert other[..n] == other && choices[..n] == choices;
      }
    }
  }

  /** Every rearrangement can come out, duplicates or not. */
  lemma EveryOrderIsReachable<T>(items: seq<T>, target: seq<T>) returns (choices: seq<nat>)
    requires multiset(target) == multiset(items)
    ensures Choices(|items|, choices) && Shuffled(items, choices) == target
  {
    assert |target| == |multiset(target)| == |multiset(items)| == |items|;
    if items == [] {
      choices := [];
    } else {
      choices := SettleSurjective(items, |items| - 1, target);
    }
  }

  /** Shuffles a fresh copy; the argument is not in the frame and stays as it was. */
  method Shuffle<T(0)>(items: array<T>, choices: seq<nat>) returns (out: array<T>)
    requires Choices(items.Length, choices)
    ensures fresh(out) && out[..] == Shuffled(items[..], choices)
  {
    var n := items.Length;
    out := new T[n];
    for k := 0 to n
      invariant out[..k] == items[..k]
    {
      out[k] := items[k];
    }
    assert out[..] == out[..n] == items[..n] == items[..];
    if n == 0 { return; }
    var i := n - 1;
    while i > 0
      invariant 0 <= i < n
      invariant Settle(out[..], i, choices) == Shuffled(items[..], choices)
    {
      var j := choices[i];
      ghost var before := out[..];
      out[i], out[j] := out[j], out[i];
      assert out[..] == Swap(before, i, j);
      i := i - 1;
    }
  }

  // ---------------------------------------------------------------------
  // UUID strings
  // ---------------------------------------------------------------------

  newtype Byte = x: int | 0 <= x < 256

  const HEX: string := "0123456789abcdef"

  function FromHex(c: char): int {
    if '0' <= c <= '9' then c as int - '0' as int
    else if 'a' <= c <= 'f' then c as int - 'a' as int + 10
    else 0
  }

  /** Where the two digits of byte `i` start. */
  function Column(i: nat): nat {
    2 * i + (if i >= 4 then 1 else 0) + (if i >= 6 then 1 else 0)
          + (if i >= 8 then 1 else 0) + (if i >= 10 then 1 else 0)
  }

  function ByteAt(text: string, i: nat): Byte
    requires |text| == 36 && i < 16
  {
    var v := 16 * FromHex(text[Column(i)]) + FromHex(text[Column(i) + 1]);
    if 0 <= v < 256 then v as Byte else 0
  }

  /** The reader of the format: sixteen bytes from the digit columns. */
  function Parse(text: string): (b: seq<Byte>)
    requires |text| == 36
  {
    seq(16, i requires 0 <= i < 16 => ByteAt(text, i))
  }

  ghost predicate Hyphenated(text: string) {
    |text| == 36 && forall k :: 0 <= k < 36 ==> (text[k] == '-' <==> k in {8, 13, 18, 23})
  }

  /** The version and variant bits of section 4.4 of RFC 4122. */
  function Stamp(b: seq<Byte>): (r: seq<Byte>)
    requires |b| == 16
    ensures |r| == 16
  {
    b[6 := b[6] % 16 + 64][8 := b[8] % 64 + 128]
  }

  lemma HexDigit(d: nat)
    requires d < 16
    ensures FromHex(HEX[d]) == d && HEX[d] != '-'
  {
  }

  /** The text after the first `i` bytes have been written. */
  function Written(b: seq<Byte>, i: nat): (text: string)
    requires i <= |b|
    ensures |text| == if i == 0 then 0 else Column(i - 1) + 2
  {
    if i == 0 then ""
    else
      Written(b, i - 1) + (if i - 1 in {4, 6, 8, 10} then "-" else "")
      + [HEX[b[i - 1] as int / 16], HEX[b[i - 1] as int % 16]]
  }

  lemma {:induction false} WrittenDigits(b: seq<Byte>, i: nat, k: nat)
    requires k < i <= |b|
    ensures Column(k) + 1 < |Written(b, i)|
    ensures Written(b, i)[Column(k)] == HEX[b[k] as int / 16]
    ensures Written(b, i)[Column(k) + 1] == HEX[b[k] as int % 16]
  {
    if k < i - 1 {
      WrittenDigits(b, i - 1, k);
    }
  }

  lemma {:induction false} WrittenHyphens(b: seq<Byte>, i: nat, p: nat)
    requires i <= |b| && i <= 16 && p < |Written(b, i)|
    ensures Written(b, i)[p] == '-' <==> p in {8, 13, 18, 23}
  {
    WrittenNext(b, i - 1);
    if p < |Written(b, i - 1)| {
      WrittenHyphens(b, i - 1, p);
    } else {
      HexDigit(b[i - 1] as int / 16);
      HexDigit(b[i - 1] as int % 16);
    }
  }

  lemma WrittenNext(b: seq<Byte>, i: nat)
    requires i < |b| && i < 16
    ensures Written(b, i + 1) == Written(b, i) + (if i in {4, 6, 8, 10} then "-" else "")
                                 + [HEX[b[i] as int / 16], HEX[b[i] as int % 16]]
    ensures |Written(b, i + 1)| <= 36
  {
  }

  lemma WrittenParses(b: seq<Byte>, text: string)
    requires |b| == 16 && text == Written(b, 16)
    ensures Hyphenated(text) && Parse(text) == b
    ensures text[14] == HEX[b[6] as int / 16] && text[19] == HEX[b[8] as int / 16]
  {
    WrittenDigits(b, 16, 6);
    WrittenDigits(b, 16, 8);
    forall p: nat | p < 36 ensures text[p] == '-' <==> p in {8, 13, 18, 23} {
      WrittenHyphens(b, 16, p);
    }
    forall i | 0 <= i < 16 ensures ByteAt(text, i) == b[i] {
      WrittenDigits(b, 16, i);
      HexDigit(b[i] as int / 16);
      HexDigit(b[i] as int % 16);
    }
  }

  method FormatUUID(b: seq<Byte>) returns (text: string)
    requires |b| == 16
    ensures Hyphenated(text) && Parse(text) == b
    ensures text[14] == HEX[b[6] as int / 16] && text[19] == HEX[b[8] as int / 16]
  {
    var out := new char[36];
    var j := 0;
    for i := 0 to 16
      invariant j == |Written(b, i)| && j <= 2 * i + 4
      invariant out[..j] == Written(b, i)
    {
      ghost var before := out[..j];
      WrittenNext(b, i);
      if i == 4 || i == 6 || i == 8 || i == 10 {
        out[j] := '-';
        j := j + 1;
      }
      assert out[..j] == before + if i in {4, 6, 8, 10} then "-" else "";
      ghost var hyphened := out[..j];
      out[j] := HEX[b[i] as int / 16];
      out[j + 1] := HEX[b[i] as int % 16];
      j := j + 2;
      assert out[..j] == hyphened + [HEX[b[i] as int / 16], HEX[b[i] as int % 16]];
    }
    text := out[..];
    assert text == out[..36];
    WrittenParses(b, text);
  }

  method UUID(source: seq<Byte>) returns (text: string)
    requires |source| == 16
    ensures Hyphenated(text)
    ensures Parse(text) == Stamp(source)
    ensures forall i :: 0 <= i < 16 && i != 6 && i != 8 ==> Parse(text)[i] == source[i]
    ensures Parse(text)[6] == source[6] % 16 + 64 && Parse(text)[8] == source[8] % 64 + 128
    ensures text[14] == '4' && text[19] in "89ab"
  {
    text := FormatUUID(Stamp(source));
  }
}
