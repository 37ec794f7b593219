/**
 * Decimal digits and the byte-wise lexicographic order of strings.
 *
 * The object store lists keys in byte order; since UTF-8 preserves the
 * order of code points, comparing the characters of a Dafny string is the
 * same as comparing the bytes of its UTF-8 encoding.
 */
module Text {
  import opened Common

  function Pow10(w: nat): (r: nat)
    ensures r >= 1
  {
    if w == 0 then 1 else 10 * Pow10(w - 1)
  }

  predicate IsDigit(c: char) {
    '0' <= c <= '9'
  }

  predicate AllDigits(s: string) {
    forall i :: 0 <= i < |s| ==> IsDigit(s[i])
  }

  function DigitChar(d: int): (c: char)
    requires 0 <= d < 10
    ensures IsDigit(c)
  {
    ('0' as int + d) as char
  }

  /** The decimal digits of `n`, zero-padded on the left to at least `w` digits. */
  function Pad(n: nat, w: nat): (s: string)
    decreases n + w
  {
    if n < 10 && w <= 1 then [DigitChar(n)]
    else Pad(n / 10, if w > 0 then w - 1 else 0) + [DigitChar(n % 10)]
  }

  /** The decimal digits of `n` with no padding (fmt's `%d` of a non-negative number). */
  function Decimal(n: nat): string {
    Pad(n, 1)
  }

  /** The number a string of decimal digits stands for. */
  function DigitsValue(s: string): nat
    requires AllDigits(s)
  {
    if s == [] then 0 else 10 * DigitsValue(s[..|s| - 1]) + (s[|s| - 1] as int - '0' as int)
  }

  lemma {:induction false} PadFacts(n: nat, w: nat)
    ensures AllDigits(Pad(n, w)) && |Pad(n, w)| >= 1 && |Pad(n, w)| >= w
    ensures w >= 1 && n < Pow10(w) ==> |Pad(n, w)| == w
    ensures DigitsValue(Pad(n, w)) == n
    decreases n + w
  {
    if n < 10 && w <= 1 {
    } else {
      var w' := if w > 0 then w - 1 else 0;
      PadFacts(n / 10, w');
      var s := Pad(n, w);
      assert s[..|s| - 1] == Pad(n / 10, w');
    }
  }

  lemma {:induction false} PadDigitsValue(s: string)
    requires AllDigits(s) && |s| >= 1
    ensures DigitsValue(s) < Pow10(|s|)
    ensures Pad(DigitsValue(s), |s|) == s
  {
    var last := s[|s| - 1] as int - '0' as int;
    if |s| == 1 {
      assert DigitsValue(s) == last;
    } else {
      var init := s[..|s| - 1];
      PadDigitsValue(init);
      var v := DigitsValue(s);
      assert v / 10 == DigitsValue(init) && v % 10 == last;
      assert s == init + [s[|s| - 1]];
    }
  }

  lemma PadInjective(n: nat, m: nat, w: nat)
    ensures Pad(n, w) == Pad(m, w) <==> n == m
  {
    PadFacts(n, w);
    PadFacts(m, w);
  }

  /** `a` sorts strictly before `b` in lexicographic (byte) order. */
  predicate Below(a: string, b: string)
    decreases |a|
  {
    if a == [] then b != []
    else b != [] && (a[0] < b[0] || (a[0] == b[0] && Below(a[1..], b[1..])))
  }

  lemma {:induction false} BelowIrreflexive(a: string)
    ensures !Below(a, a)
  {
    if a != [] {
      BelowIrreflexive(a[1..]);
    }
  }

  lemma {:induction false} BelowAsymmetric(a: string, b: string)
    ensures Below(a, b) ==> !Below(b, a)
  {
    if a != [] && b != [] {
      BelowAsymmetric(a[1..], b[1..]);
    }
  }

  /** Comparing two concatenations whose first parts have the same length. */
  lemma {:induction false} BelowConcat(a1: string, b1: string, a2: string, b2: string)
    requires |a1| == |a2|
    ensures Below(a1 + b1, a2 + b2) <==> Below(a1, a2) || (a1 == a2 && Below(b1, b2))
  {
    if a1 == [] {
      assert a1 + b1 == b1 && a2 + b2 == b2;
    } else {
      BelowConcat(a1[1..], b1, a2[1..], b2);
      assert (a1 + b1)[1..] == a1[1..] + b1;
      assert (a2 + b2)[1..] == a2[1..] + b2;
      if a1[0] == a2[0] && a1[1..] == a2[1..] {
        assert a1 == a2;
      }
    }
  }

  /** A common prefix decides nothing. */
  lemma CommonPrefix(p: string, x: string, y: string)
    ensures Below(p + x, p + y) <==> Below(x, y)
    ensures p + x == p + y <==> x == y
  {
    BelowConcat(p, x, p, y);
    BelowIrreflexive(p);
    if p + x == p + y {
      assert x == (p + x)[|p|..];
      assert y == (p + y)[|p|..];
    }
  }

  /** A proper prefix sorts before every extension of it. */
  lemma PrefixBelow(a: string, b: string)
    requires b != []
    ensures Below(a, a + b)
  {
    BelowConcat(a, [], a, b);
    assert a + [] == a;
  }

  /** Parts joined by a separator character. */
  function Join(parts: seq<string>, sep: char): string {
    if |parts| == 0 then ""
    else if |parts| == 1 then parts[0]
    else parts[0] + [sep] + Join(parts[1..], sep)
  }

  /** Lexicographic order on sequences of strings, part by part. */
  predicate PartsBelow(ps: seq<string>, qs: seq<string>)
    decreases |ps|
  {
    |ps| > 0 && |qs| > 0 && (Below(ps[0], qs[0]) || (ps[0] == qs[0] && PartsBelow(ps[1..], qs[1..])))
  }

  /** Lexicographic order on sequences of numbers, field by field. */
  predicate IntsBelow(xs: seq<int>, ys: seq<int>)
    decreases |xs|
  {
    |xs| > 0 && |ys| > 0 && (xs[0] < ys[0] || (xs[0] == ys[0] && IntsBelow(xs[1..], ys[1..])))
  }

  lemma {:induction false} JoinBelow(ps: seq<string>, qs: seq<string>, sep: char)
    requires |ps| == |qs| >= 1
    requires forall i :: 0 <= i < |ps| ==> |ps[i]| == |qs[i]|
    ensures Below(Join(ps, sep), Join(qs, sep)) <==> PartsBelow(ps, qs)
  {
    if |ps| == 1 {
      assert !PartsBelow(ps[1..], qs[1..]);
    } else {
      var j1, j2 := Join(ps[1..], sep), Join(qs[1..], sep);
      JoinBelow(ps[1..], qs[1..], sep);
      assert Join(ps, sep) == ps[0] + ([sep] + j1);
      assert Join(qs, sep) == qs[0] + ([sep] + j2);
      BelowConcat(ps[0], [sep] + j1, qs[0], [sep] + j2);
      assert ([sep] + j1)[1..] == j1 && ([sep] + j2)[1..] == j2;
    }
  }

  /** Fixed-width zero-padded numbers sort as the numbers do. */
  lemma {:induction false} PadBelow(n: nat, m: nat, w: nat)
    requires w >= 1 && n < Pow10(w) && m < Pow10(w)
    ensures Below(Pad(n, w), Pad(m, w)) <==> n < m
  {
    if w == 1 {
      assert Pad(n, w)[1..] == [] && Pad(m, w)[1..] == [];
    } else {
      PadStep(n, w);
      PadStep(m, w);
      PadBelow(n / 10, m / 10, w - 1);
      PadInjective(n / 10, m / 10, w - 1);
      BelowConcat(Pad(n / 10, w - 1), [DigitChar(n % 10)], Pad(m / 10, w - 1), [DigitChar(m % 10)]);
      DigitBelow(n % 10, m % 10);
      DigitSplitOrder(n, m);
    }
  }

  /** A padded number of width two or more is its padded tenth followed by its last digit. */
  lemma PadStep(n: nat, w: nat)
    requires w >= 2 && n < Pow10(w)
    ensures n / 10 < Pow10(w - 1)
    ensures Pad(n, w) == Pad(n / 10, w - 1) + [DigitChar(n % 10)]
    ensures |Pad(n / 10, w - 1)| == w - 1
  {
    assert n < 10 * Pow10(w - 1);
    PadFacts(n / 10, w - 1);
  }

  /** One-digit strings sort as their digits do. */
  lemma DigitBelow(a: nat, b: nat)
    requires a < 10 && b < 10
    ensures Below([DigitChar(a)], [DigitChar(b)]) <==> a < b
  {
    assert [DigitChar(a)][1..] == [] && [DigitChar(b)][1..] == [];
  }

  /** Numbers compare by all digits but the last, then by the last. */
  lemma DigitSplitOrder(n: nat, m: nat)
    ensures n < m <==> n / 10 < m / 10 || (n / 10 == m / 10 && n % 10 < m % 10)
  {
    assert n == 10 * (n / 10) + n % 10;
    assert m == 10 * (m / 10) + m % 10;
  }

  /** Every number of a field list padded to that field's width. */
  function PadAll(xs: seq<nat>, ws: seq<nat>): (r: seq<string>)
    requires |xs| == |ws|
    ensures |r| == |xs|
    ensures forall i :: 0 <= i < |r| ==> r[i] == Pad(xs[i], ws[i])
  {
    if xs == [] then [] else [Pad(xs[0], ws[0])] + PadAll(xs[1..], ws[1..])
  }

  predicate Fits(xs: seq<nat>, ws: seq<nat>) {
    |xs| == |ws| && forall i :: 0 <= i < |xs| ==> ws[i] >= 1 && xs[i] < Pow10(ws[i])
  }

  lemma {:induction false} PadAllBelow(xs: seq<nat>, ys: seq<nat>, ws: seq<nat>)
    requires Fits(xs, ws) && Fits(ys, ws)
    ensures PartsBelow(PadAll(xs, ws), PadAll(ys, ws)) <==> IntsBelow(xs, ys)
  {
    if xs != [] {
      PadAllBelow(xs[1..], ys[1..], ws[1..]);
      PadBelow(xs[0], ys[0], ws[0]);
      PadInjective(xs[0], ys[0], ws[0]);
      assert PadAll(xs, ws)[1..] == PadAll(xs[1..], ws[1..]);
      assert PadAll(ys, ws)[1..] == PadAll(ys[1..], ws[1..]);
    }
  }

  /** Joined fixed-width fields sort as the field lists do, lexicographically. */
  lemma PaddedJoinBelow(xs: seq<nat>, ys: seq<nat>, ws: seq<nat>, sep: char)
    requires |ws| >= 1 && Fits(xs, ws) && Fits(ys, ws)
    ensures Below(Join(PadAll(xs, ws), sep), Join(PadAll(ys, ws), sep)) <==> IntsBelow(xs, ys)
  {
    forall i | 0 <= i < |ws|
      ensures |PadAll(xs, ws)[i]| == |PadAll(ys, ws)[i]|
    {
      PadFacts(xs[i], ws[i]);
      PadFacts(ys[i], ws[i]);
    }
    JoinBelow(PadAll(xs, ws), PadAll(ys, ws), sep);
    PadAllBelow(xs, ys, ws);
  }

  lemma {:induction false} IntsBelowConcat(x1: seq<int>, x2: seq<int>, y1: seq<int>, y2: seq<int>)
    requires |x1| == |y1|
    ensures IntsBelow(x1 + x2, y1 + y2) <==> IntsBelow(x1, y1) || (x1 == y1 && IntsBelow(x2, y2))
  {
    if x1 == [] {
      assert x1 + x2 == x2 && y1 + y2 == y2;
    } else {
      IntsBelowConcat(x1[1..], x2, y1[1..], y2);
      assert (x1 + x2)[1..] == x1[1..] + x2;
      assert (y1 + y2)[1..] == y1[1..] + y2;
      if x1[0] == y1[0] && x1[1..] == y1[1..] {
        assert x1 == y1;
      }
    }
  }

  lemma IntsBelow3(x: seq<int>, y: seq<int>)
    requires |x| == |y| == 3
    ensures IntsBelow(x, y) <==> x[0] < y[0] || (x[0] == y[0] && (x[1] < y[1] || (x[1] == y[1] && x[2] < y[2])))
  {
    assert IntsBelow(x[2..], y[2..]) <==> x[2] < y[2] by {
      assert x[2..][1..] == [] && y[2..][1..] == [];
    }
    assert IntsBelow(x[1..], y[1..]) <==> x[1] < y[1] || (x[1] == y[1] && IntsBelow(x[2..], y[2..])) by {
      assert x[1..][1..] == x[2..] && y[1..][1..] == y[2..];
    }
  }

  lemma {:induction false} JoinSameLength(ps: seq<string>, qs: seq<string>, sep: char)
    requires |ps| == |qs|
    requires forall i :: 0 <= i < |ps| ==> |ps[i]| == |qs[i]|
    ensures |Join(ps, sep)| == |Join(qs, sep)|
  {
    if |ps| > 1 {
      JoinSameLength(ps[1..], qs[1..], sep);
    }
  }

  /**
   * Splits `s` into fields of the given widths separated by single `sep`
   * characters; None when `s` does not have that exact shape.
   */
  function SplitFixed(s: string, ws: seq<nat>, sep: char): (r: Option<seq<string>>)
    ensures r.Some? ==> |r.value| == |ws|
    ensures r.Some? ==> forall i :: 0 <= i < |ws| ==> |r.value[i]| == ws[i]
  {
    if |ws| == 0 then None
    else if |ws| == 1 then (if |s| == ws[0] then Some([s]) else None)
    else if |s| > ws[0] && s[ws[0]] == sep then
      match SplitFixed(s[ws[0] + 1..], ws[1..], sep)
      case None => None
      case Some(rest) => Some([s[..ws[0]]] + rest)
    else None
  }

  /** Splitting undoes joining, whenever the fields have the widths and do not contain the separator. */
  lemma {:induction false} SplitJoin(ps: seq<string>, ws: seq<nat>, sep: char)
    requires |ps| == |ws| >= 1
    requires forall i :: 0 <= i < |ps| ==> |ps[i]| == ws[i]
    ensures SplitFixed(Join(ps, sep), ws, sep) == Some(ps)
  {
    if |ps| > 1 {
      var s := Join(ps, sep);
      SplitJoin(ps[1..], ws[1..], sep);
      assert s == ps[0] + [sep] + Join(ps[1..], sep);
      assert |s| > ws[0] && s[ws[0]] == sep;
      assert s[..ws[0]] == ps[0];
      assert s[ws[0] + 1..] == Join(ps[1..], sep);
      assert SplitFixed(s, ws, sep) == Some([ps[0]] + ps[1..]);
      assert [ps[0]] + ps[1..] == ps;
    } else {
      assert ps == [ps[0]];
    }
  }

  /** Joining undoes splitting. */
  lemma {:induction false} JoinSplit(s: string, ws: seq<nat>, sep: char)
    requires SplitFixed(s, ws, sep).Some?
    ensures Join(SplitFixed(s, ws, sep).value, sep) == s
  {
    if |ws| > 1 {
      var ps := SplitFixed(s, ws, sep).value;
      JoinSplit(s[ws[0] + 1..], ws[1..], sep);
      assert ps[1..] == SplitFixed(s[ws[0] + 1..], ws[1..], sep).value;
      assert s == s[..ws[0]] + [sep] + s[ws[0] + 1..];
    }
  }

  /** Total length of a separated fixed-width layout. */
  function LayoutWidth(ws: seq<nat>): nat
    requires |ws| >= 1
  {
    if |ws| == 1 then ws[0] else ws[0] + 1 + LayoutWidth(ws[1..])
  }

  lemma {:induction false} SplitFixedLength(s: string, ws: seq<nat>, sep: char)
    requires SplitFixed(s, ws, sep).Some?
    ensures |ws| >= 1 && |s| == LayoutWidth(ws)
  {
    if |ws| > 1 {
      SplitFixedLength(s[ws[0] + 1..], ws[1..], sep);
    }
  }

  /** The numbers in `s` when it is fixed-width digit fields of widths `ws` separated by `sep`. */
  function ParseFields(s: string, ws: seq<nat>, sep: char): (r: Option<seq<nat>>)
    ensures r.Some? ==> |r.value| == |ws| && forall i :: 0 <= i < |ws| ==> r.value[i] < Pow10(ws[i])
  {
    match SplitFixed(s, ws, sep)
    case None => None
    case Some(ps) =>
      if forall i :: 0 <= i < |ps| ==> AllDigits(ps[i]) then
        var xs := seq(|ps|, i requires 0 <= i < |ps| => DigitsValue(ps[i]));
        assert forall i :: 0 <= i < |ws| ==> xs[i] < Pow10(ws[i]) by {
          forall i | 0 <= i < |ws|
            ensures xs[i] < Pow10(ws[i])
          {
            if ws[i] == 0 {
              assert ps[i] == [];
            } else {
              PadDigitsValue(ps[i]);
            }
          }
        }
        Some(xs)
      else None
  }

  /** Reading back fields that were written zero-padded to their widths. */
  lemma ParseFieldsOfJoin(xs: seq<nat>, ws: seq<nat>, sep: char)
    requires |ws| >= 1 && Fits(xs, ws)
    ensures ParseFields(Join(PadAll(xs, ws), sep), ws, sep) == Some(xs)
  {
    var ps := PadAll(xs, ws);
    forall i | 0 <= i < |ps|
      ensures |ps[i]| == ws[i] && AllDigits(ps[i]) && DigitsValue(ps[i]) == xs[i]
    {
      PadFacts(xs[i], ws[i]);
    }
    SplitJoin(ps, ws, sep);
    var r := ParseFields(Join(ps, sep), ws, sep);
    assert r.Some?;
    assert r.value == xs;
  }

  /** Whatever parses as fields is those fields written zero-padded. */
  lemma JoinOfParseFields(s: string, ws: seq<nat>, sep: char)
    requires forall i :: 0 <= i < |ws| ==> ws[i] >= 1
    requires ParseFields(s, ws, sep).Some?
    ensures Fits(ParseFields(s, ws, sep).value, ws)
    ensures Join(PadAll(ParseFields(s, ws, sep).value, ws), sep) == s
  {
    var ps := SplitFixed(s, ws, sep).value;
    var xs := ParseFields(s, ws, sep).value;
    JoinSplit(s, ws, sep);
    forall i | 0 <= i < |ws|
      ensures ws[i] >= 1 && PadAll(xs, ws)[i] == ps[i]
    {
      PadDigitsValue(ps[i]);
    }
    assert PadAll(xs, ws) == ps;
  }

  /** `strings.HasPrefix`. */
  predicate HasPrefix(s: string, prefix: string) {
    |prefix| <= |s| && s[..|prefix|] == prefix
  }

  /** `strings.HasSuffix`. */
  predicate HasSuffix(s: string, suffix: string) {
    |suffix| <= |s| && s[|s| - |suffix|..] == suffix
  }

  /** `strings.Split(s, string(sep))`: the pieces between the separators, at least one. */
  function Split(s: string, sep: char): (r: seq<string>)
    ensures |r| >= 1
    decreases |s|
  {
    if s == [] then [""]
    else if s[0] == sep then [""] + Split(s[1..], sep)
    else
      var rest := Split(s[1..], sep);
      [[s[0]] + rest[0]] + rest[1..]
  }

  predicate Free(s: string, sep: char) {
    forall i :: 0 <= i < |s| ==> s[i] != sep
  }

  /** A piece without the separator, followed by the separator, splits off as one piece. */
  lemma {:induction false} SplitPiece(p: string, sep: char, t: string)
    requires Free(p, sep)
    ensures Split(p + [sep] + t, sep) == [p] + Split(t, sep)
    ensures Split(p, sep) == [p]
    decreases |p|
  {
    if p == [] {
      assert p + [sep] + t == [sep] + t;
      assert ([sep] + t)[1..] == t;
    } else {
      assert (p + [sep] + t)[1..] == p[1..] + [sep] + t;
      SplitPiece(p[1..], sep, t);
      assert [p[0]] + p[1..] == p;
    }
  }

  /** Splitting undoes joining whenever no part contains the separator. */
  lemma {:induction false} SplitOfJoin(parts: seq<string>, sep: char)
    requires |parts| >= 1
    requires forall i :: 0 <= i < |parts| ==> Free(parts[i], sep)
    ensures Split(Join(parts, sep), sep) == parts
    decreases |parts|
  {
    if |parts| == 1 {
      SplitPiece(parts[0], sep, "");
    } else {
      var tail := parts[1..];
      assert forall i :: 0 <= i < |tail| ==> Free(tail[i], sep) by {
        forall i | 0 <= i < |tail| ensures tail[i] == parts[i + 1] { }
      }
      SplitOfJoin(tail, sep);
      assert Join(parts, sep) == parts[0] + [sep] + Join(tail, sep);
      SplitPiece(parts[0], sep, Join(tail, sep));
      assert [parts[0]] + tail == parts;
    }
  }
}
