/** Positional numerals: fixed-width digit strings over an alphabet, their values
    and their order. */
module Numerals {
  import opened Order

  /** `v` can be written with `n` digits. */
  predicate Fits(base: nat, n: nat, v: nat)
    requires base >= 1
  {
    if n == 0 then v == 0 else Fits(base, n - 1, v / base)
  }

  /** The digit characters of an alphabet are distinct. */
  ghost predicate IsAlphabet(alphabet: string) {
    |alphabet| >= 2 && forall i, j :: 0 <= i < j < |alphabet| ==> alphabet[i] != alphabet[j]
  }

  /** A sorted alphabet lists its digits in character order, so that numerals of
      one width sort as the numbers do. */
  ghost predicate IsSorted(alphabet: string) {
    |alphabet| >= 2 && forall i, j :: 0 <= i < j < |alphabet| ==> alphabet[i] < alphabet[j]
  }

  /** The low `n` digits of `v`, most significant first. */
  function Write(alphabet: string, n: nat, v: nat): (s: string)
    requires alphabet != ""
    ensures |s| == n
  {
    if n == 0 then "" else Write(alphabet, n - 1, v / |alphabet|) + [alphabet[v % |alphabet|]]
  }

  /** The value of one digit; `|alphabet|` when `c` is no digit. */
  function Digit(alphabet: string, c: char): (d: nat)
    ensures d <= |alphabet|
    ensures d < |alphabet| ==> alphabet[d] == c
    ensures d == |alphabet| <==> c !in alphabet
  {
    if alphabet == "" then 0
    else if alphabet[0] == c then 0
    else Digit(alphabet[1..], c) + 1
  }

  predicate IsNumeral(alphabet: string, s: string) {
    forall i :: 0 <= i < |s| ==> s[i] in alphabet
  }

  function Read(alphabet: string, s: string): nat {
    if s == "" then 0
    else Read(alphabet, s[..|s| - 1]) * |alphabet| + Digit(alphabet, s[|s| - 1])
  }

  lemma DigitOf(alphabet: string, i: nat)
    requires IsAlphabet(alphabet) && i < |alphabet|
    ensures Digit(alphabet, alphabet[i]) == i
  {
    var d := Digit(alphabet, alphabet[i]);
    assert alphabet[i] in alphabet;
    assert alphabet[d] == alphabet[i];
  }

  // ---- arithmetic ----

  lemma MulMonotone(k: nat, x: nat, y: nat)
    requires x <= y
    ensures k * x <= k * y
  {
  }

  lemma DivMod(base: nat, v: nat)
    requires base >= 1
    ensures (v / base) * base + v % base == v
  {
  }

  lemma QuotientRemainder(base: nat, q: nat, r: nat)
    requires r < base
    ensures (q * base + r) / base == q && (q * base + r) % base == r
  {
    var v := q * base + r;
    var q', r' := v / base, v % base;
    assert base * q' + r' == base * q + r;
    if q' < q { MulMonotone(base, q' + 1, q); }
    if q < q' { MulMonotone(base, q + 1, q'); }
  }

  lemma LessByParts(base: nat, v: nat, w: nat)
    requires base >= 1
    ensures v < w <==> v / base < w / base || (v / base == w / base && v % base < w % base)
  {
    var p, q := v / base, w / base;
    assert v == base * p + v % base && w == base * q + w % base;
    if p < q { MulMonotone(base, p + 1, q); }
    if q < p { MulMonotone(base, q + 1, p); }
  }

  function Pow(base: nat, n: nat): nat {
    if n == 0 then 1 else base * Pow(base, n - 1)
  }

  lemma {:induction false} FitsPow(base: nat, n: nat, v: nat)
    requires base >= 1
    ensures Fits(base, n, v) <==> v < Pow(base, n)
  {
    if n > 0 {
      FitsPow(base, n - 1, v / base);
      DivBelow(base, v, Pow(base, n - 1));
    }
  }

  lemma DivBelow(base: nat, v: nat, p: nat)
    requires base >= 1
    ensures v < base * p <==> v / base < p
  {
    var q := v / base;
    assert v == base * q + v % base;
    if q < p { MulMonotone(base, q + 1, p); } else { MulMonotone(base, p, q); }
  }

  // ---- round trips and order ----

  lemma {:induction false} ReadWrite(alphabet: string, n: nat, v: nat)
    requires IsAlphabet(alphabet) && Fits(|alphabet|, n, v)
    ensures IsNumeral(alphabet, Write(alphabet, n, v))
    ensures Read(alphabet, Write(alphabet, n, v)) == v
  {
    if n > 0 {
      ReadWrite(alphabet, n - 1, v / |alphabet|);
      ReadAppend(alphabet, Write(alphabet, n - 1, v / |alphabet|), v % |alphabet|);
      DivMod(|alphabet|, v);
    }
  }

  lemma ReadAppend(alphabet: string, s: string, d: nat)
    requires IsAlphabet(alphabet) && IsNumeral(alphabet, s) && d < |alphabet|
    ensures IsNumeral(alphabet, s + [alphabet[d]])
    ensures Read(alphabet, s + [alphabet[d]]) == Read(alphabet, s) * |alphabet| + d
  {
    DigitOf(alphabet, d);
    assert (s + [alphabet[d]])[..|s|] == s;
  }

  lemma {:induction false} WriteRead(alphabet: string, s: string)
    requires IsAlphabet(alphabet) && IsNumeral(alphabet, s)
    ensures Fits(|alphabet|, |s|, Read(alphabet, s))
    ensures Write(alphabet, |s|, Read(alphabet, s)) == s
  {
    if s != "" {
      var b, front, last := |alphabet|, s[..|s| - 1], s[|s| - 1];
      WriteRead(alphabet, front);
      assert last in alphabet;
      QuotientRemainder(b, Read(alphabet, front), Digit(alphabet, last));
      assert s == front + [last];
    }
  }

  /** Numbers written with the same number of digits sort by value. */
  lemma {:induction false} WriteOrder(alphabet: string, n: nat, v: nat, w: nat)
    requires IsSorted(alphabet) && Fits(|alphabet|, n, v) && Fits(|alphabet|, n, w)
    ensures Less(Write(alphabet, n, v), Write(alphabet, n, w)) <==> v < w
  {
    if n > 0 {
      var p, q := v / |alphabet|, w / |alphabet|;
      WriteOrder(alphabet, n - 1, p, q);
      WriteOrder(alphabet, n - 1, q, p);
      var s, t := Write(alphabet, n - 1, p), Write(alphabet, n - 1, q);
      LessMeansOther(s, t);
      LessMeansOther(t, s);
      LastDigits(alphabet, v, w, s, t);
    }
  }

  lemma LessMeansOther(s: string, t: string)
    ensures Less(s, t) ==> s != t
  {
    LessIrreflexive(s);
  }

  lemma LastDigits(alphabet: string, v: nat, w: nat, s: string, t: string)
    requires IsSorted(alphabet) && alphabet != "" && |s| == |t|
    requires var (p, q) := (v / |alphabet|, w / |alphabet|); (Less(s, t) <==> p < q) && (s == t <==> p == q)
    ensures Less(s + [alphabet[v % |alphabet|]], t + [alphabet[w % |alphabet|]]) <==> v < w
  {
    LessByParts(|alphabet|, v, w);
    LastDigitOrder(s, t, alphabet[v % |alphabet|], alphabet[w % |alphabet|]);
  }

  lemma LastDigitOrder(s: string, t: string, c: char, d: char)
    requires |s| == |t|
    ensures Less(s + [c], t + [d]) <==> Less(s, t) || (s == t && c < d)
  {
    LessAppend(s, t, [c], [d]);
  }
}
