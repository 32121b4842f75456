/** Text helpers shared by the services: decimal rendering and parsing of
    integers (Python's str(int) and int(str)), the thousands grouping of the
    `:,.0f` format, ASCII case folding, substring search and character removal. */
module Text {

  datatype Option<T> = None | Some(value: T)

  predicate IsDigit(c: char) { '0' <= c <= '9' }

  predicate AllDigits(s: string) { forall i :: 0 <= i < |s| ==> IsDigit(s[i]) }

  function DigitChar(d: nat): (c: char)
    requires d < 10
    ensures IsDigit(c) && DigitValue(c) == d
  {
    (('0' as int) + d) as char
  }

  function DigitValue(c: char): nat
    requires IsDigit(c)
  {
    (c as int) - ('0' as int)
  }

  /** Decimal digits of `n`, most significant first, as Python's str(n). */
  function NatToString(n: nat): (s: string)
    ensures |s| > 0 && AllDigits(s)
    ensures s[0] == '0' ==> n == 0
  {
    if n < 10 then [DigitChar(n)] else NatToString(n / 10) + [DigitChar(n % 10)]
  }

  /** The number a digit string denotes. */
  function DigitsValue(s: string): nat
    requires AllDigits(s)
  {
    if s == [] then 0 else DigitsValue(s[..|s| - 1]) * 10 + DigitValue(s[|s| - 1])
  }

  /** A non-empty string of decimal digits, read as a number. */
  function ParseNat(s: string): (r: Option<nat>)
    ensures r.Some? <==> |s| > 0 && AllDigits(s)
  {
    if |s| > 0 && AllDigits(s) then Some(DigitsValue(s)) else None
  }

  /** Python's str() of an integer: a minus sign, then the digits of the magnitude. */
  function IntToString(i: int): string
  {
    if i < 0 then "-" + NatToString(-i) else NatToString(i)
  }

  /** Python's int() of a text: an optional sign followed by decimal digits.
      Surrounding whitespace and digit-group underscores, which int() also
      accepts, are not part of this model. */
  function ParseInt(s: string): Option<int>
  {
    if |s| > 0 && (s[0] == '-' || s[0] == '+') then
      match ParseNat(s[1..])
      case None => None
      case Some(n) =>
        var m: int := n;
        Some(if s[0] == '-' then -m else m)
    else
      match ParseNat(s)
      case None => None
      case Some(n) => Some(n)
  }

  lemma {:induction false} NatToStringValue(n: nat)
    ensures DigitsValue(NatToString(n)) == n
  {
    if n >= 10 {
      var s := NatToString(n);
      assert s[..|s| - 1] == NatToString(n / 10);
      NatToStringValue(n / 10);
    }
  }

  /** Rendering then parsing an integer gives it back. */
  lemma ParseIntRoundTrip(i: int)
    ensures ParseInt(IntToString(i)) == Some(i)
  {
    if i < 0 {
      var d := NatToString(-i);
      var s := "-" + d;
      assert s[0] == '-' && s[1..] == d;
      NatToStringValue(-i);
      assert ParseNat(d) == Some(-i);
    } else {
      var d := NatToString(i);
      assert IsDigit(d[0]);
      NatToStringValue(i);
      assert ParseNat(d) == Some(i);
    }
  }

  /** Three digits with leading zeros: one thousands group. */
  function Pad3(r: nat): (s: string)
    requires r < 1000
    ensures |s| == 3 && AllDigits(s)
  {
    [DigitChar(r / 100), DigitChar((r / 10) % 10), DigitChar(r % 10)]
  }

  /** The integral part of Python's `{n:,.0f}` for a natural number:
      its digits with a comma between thousands groups. */
  function Grouped(n: nat): (s: string)
    ensures |s| > 0
  {
    if n < 1000 then NatToString(n) else Grouped(n / 1000) + "," + Pad3(n % 1000)
  }

  /** `{x:,.0f}` of an integral amount: a minus sign for negatives, then the grouped magnitude. */
  function FormatAmount(x: int): string
  {
    if x < 0 then "-" + Grouped(-x) else Grouped(x)
  }

  /** Python's `s.replace(c, "")` for a single character `c`. */
  function RemoveChar(s: string, c: char): (r: string)
    ensures c !in r
    ensures |r| <= |s|
  {
    if s == [] then [] else (if s[0] == c then [] else [s[0]]) + RemoveChar(s[1..], c)
  }

  lemma {:induction false} RemoveCharAppend(a: string, b: string, c: char)
    ensures RemoveChar(a + b, c) == RemoveChar(a, c) + RemoveChar(b, c)
  {
    if a != [] {
      assert (a + b)[0] == a[0] && (a + b)[1..] == a[1..] + b;
      RemoveCharAppend(a[1..], b, c);
      var h := if a[0] == c then [] else [a[0]];
      calc {
        RemoveChar(a + b, c);
        h + RemoveChar(a[1..] + b, c);
        h + (RemoveChar(a[1..], c) + RemoveChar(b, c));
        (h + RemoveChar(a[1..], c)) + RemoveChar(b, c);
        { assert RemoveChar(a, c) == h + RemoveChar(a[1..], c); }
        RemoveChar(a, c) + RemoveChar(b, c);
      }
    } else {
      assert a + b == b;
    }
  }

  /** Removal keeps a string without `c` as it is, so it is idempotent. */
  lemma {:induction false} RemoveCharAbsent(s: string, c: char)
    requires c !in s
    ensures RemoveChar(s, c) == s
  {
    if s != [] {
      RemoveCharAbsent(s[1..], c);
    }
  }

  /** Every character other than `c` survives removal as often as it occurred. */
  lemma {:induction false} RemoveCharCounts(s: string, c: char, d: char)
    requires d != c
    ensures multiset(RemoveChar(s, c))[d] == multiset(s)[d]
  {
    if s != [] {
      RemoveCharCounts(s[1..], c, d);
      assert s == [s[0]] + s[1..];
    }
  }

  /** The last three decimal digits of `n` are those of `n % 1000`. */
  lemma ThousandsDigits(n: nat)
    ensures n / 10 / 10 == n / 100 && n / 100 / 10 == n / 1000
    ensures (n / 100) % 10 == (n % 1000) / 100
    ensures (n / 10) % 10 == ((n % 1000) / 10) % 10
    ensures n % 10 == (n % 1000) % 10
  {
    var q, r := n / 1000, n % 1000;
    assert n == 1000 * q + r;
    assert n / 10 == 100 * q + r / 10;
    assert n / 100 == 10 * q + r / 100;
  }

  lemma {:induction false} NatToStringThousands(n: nat)
    requires n >= 1000
    ensures NatToString(n) == NatToString(n / 1000) + Pad3(n % 1000)
  {
    ThousandsDigits(n);
    var a, b, c := DigitChar((n / 100) % 10), DigitChar((n / 10) % 10), DigitChar(n % 10);
    assert NatToString(n) == NatToString(n / 10) + [c];
    assert NatToString(n / 10) == NatToString(n / 100) + [b];
    assert NatToString(n / 100) == NatToString(n / 1000) + [a];
    assert Pad3(n % 1000) == [a, b, c];
  }

  /** Dropping the grouping commas gives back the plain decimal digits. */
  lemma {:induction false} GroupedDigits(n: nat)
    ensures RemoveChar(Grouped(n), ',') == NatToString(n)
  {
    if n < 1000 {
      RemoveCharAbsent(NatToString(n), ',');
    } else {
      var g, p := Grouped(n / 1000), Pad3(n % 1000);
      assert Grouped(n) == g + ("," + p);
      GroupedDigits(n / 1000);
      RemoveCharAppend(g, "," + p, ',');
      RemoveCharAppend(",", p, ',');
      assert RemoveChar(",", ',') == [];
      RemoveCharAbsent(p, ',');
      assert RemoveChar("," + p, ',') == p;
      assert RemoveChar(Grouped(n), ',') == NatToString(n / 1000) + p;
      NatToStringThousands(n);
    }
  }

  /** Dropping the group separators from a formatted amount leaves Python's
      str() of it. */
  lemma FormatAmountDigits(x: int)
    ensures RemoveChar(FormatAmount(x), ',') == IntToString(x)
  {
    if x < 0 {
      RemoveCharAppend("-", Grouped(-x), ',');
      assert RemoveChar("-", ',') == "-";
      GroupedDigits(-x);
    } else {
      GroupedDigits(x);
    }
  }

  /** Deleting the group separators from a formatted amount and reading the
      rest as an integer gives the amount back. */
  lemma FormatAmountRoundTrip(x: int)
    ensures ParseInt(RemoveChar(FormatAmount(x), ',')) == Some(x)
  {
    FormatAmountDigits(x);
    ParseIntRoundTrip(x);
  }

  /** ASCII lower-casing: the model's stand-in for the case folding of ILIKE. */
  function Lower(s: string): (r: string)
    ensures |r| == |s|
  {
    seq(|s|, i requires 0 <= i < |s| => if 'A' <= s[i] <= 'Z' then ((s[i] as int) + 32) as char else s[i])
  }

  /** `needle` occurs in `hay` at some position. */
  function IsSubstring(needle: string, hay: string): bool
    decreases |hay|
  {
    needle <= hay || (hay != [] && IsSubstring(needle, hay[1..]))
  }

  /** `needle` sits in `hay` starting at index `i`. */
  predicate OccursAt(needle: string, hay: string, i: int)
  {
    0 <= i && i + |needle| <= |hay| && hay[i..i + |needle|] == needle
  }

  /** The recursive search agrees with the positional definition. */
  lemma {:induction false} IsSubstringAt(needle: string, hay: string)
    ensures IsSubstring(needle, hay) <==> exists i :: OccursAt(needle, hay, i)
    decreases |hay|
  {
    if needle <= hay {
      assert OccursAt(needle, hay, 0);
    } else if hay != [] {
      IsSubstringAt(needle, hay[1..]);
      if IsSubstring(needle, hay[1..]) {
        var i :| OccursAt(needle, hay[1..], i);
        OccursLater(needle, hay, i);
      }
      if exists i :: OccursAt(needle, hay, i) {
        var i :| OccursAt(needle, hay, i);
        assert i != 0;
        OccursLater(needle, hay, i - 1);
      }
    }
  }

  /** An occurrence past the first character is an occurrence in the tail. */
  lemma OccursLater(needle: string, hay: string, i: int)
    requires hay != [] && 0 <= i
    ensures OccursAt(needle, hay[1..], i) <==> OccursAt(needle, hay, i + 1)
  {
    if i + |needle| <= |hay| - 1 {
      assert hay[1..][i..i + |needle|] == hay[i + 1..i + 1 + |needle|];
    }
  }

  /** A piece of a concatenation occurs in it. */
  lemma {:induction false} IsSubstringOfConcat(a: string, b: string, c: string)
    ensures IsSubstring(b, a + b + c)
  {
    IsSubstringAt(b, a + b + c);
    assert OccursAt(b, a + b + c, |a|);
  }

  /** A text occurs in any text built around it. */
  lemma IsSubstringWithin(x: string, p: string, b: string, q: string, y: string)
    ensures IsSubstring(b, x + (p + b + q) + y)
  {
    IsSubstringOfConcat(x + p, b, q + y);
    assert x + (p + b + q) + y == (x + p) + b + (q + y);
  }

  /** An occurrence in a text is an occurrence in any extension of it. */
  lemma IsSubstringOfPrefix(b: string, s: string, t: string)
    requires IsSubstring(b, s)
    ensures IsSubstring(b, s + t)
  {
    IsSubstringAt(b, s);
    var i :| OccursAt(b, s, i);
    assert (s + t)[i..i + |b|] == s[i..i + |b|];
    assert OccursAt(b, s + t, i);
    IsSubstringAt(b, s + t);
  }

  lemma IsSubstringTrans(a: string, b: string, c: string)
    requires IsSubstring(a, b) && IsSubstring(b, c)
    ensures IsSubstring(a, c)
  {
    IsSubstringAt(a, b);
    IsSubstringAt(b, c);
    var i :| OccursAt(a, b, i);
    var j :| OccursAt(b, c, j);
    forall t | 0 <= t < |a| ensures c[j + i + t] == a[t] {
      assert a[t] == b[i..i + |a|][t] == b[i + t];
      assert b[i + t] == c[j..j + |b|][i + t] == c[j + i + t];
    }
    assert c[j + i..j + i + |a|] == a;
    assert OccursAt(a, c, j + i);
    IsSubstringAt(a, c);
  }

  /** A text built from five pieces starts with the first, contains the
      third and the fourth, and ends with the fifth. */
  lemma FivePieces(a: string, b: string, c: string, d: string, e: string)
    ensures var s := a + b + c + d + e;
      a <= s && IsSubstring(c, s) && IsSubstring(d, s) && s[|s| - |e|..] == e
  {
    var s := a + b + c + d + e;
    IsSubstringOfConcat(a + b, c, d + e);
    assert s == (a + b) + c + (d + e);
    IsSubstringOfConcat(a + b + c, d, e);
    assert s == a + (b + c + d + e);
  }

  /** What follows the first piece of a three-piece text. */
  lemma AfterFirst(a: string, b: string, c: string)
    ensures |a| <= |a + b + c| && (a + b + c)[|a|..] == b + c
  {
    assert a + b + c == a + (b + c);
  }

  /** The texts joined end to end, as a run of `+=` builds them. */
  function Concat(parts: seq<string>): string
  {
    if parts == [] then "" else Concat(parts[..|parts| - 1]) + parts[|parts| - 1]
  }

  lemma {:induction false} ConcatAppend(a: seq<string>, b: seq<string>)
    ensures Concat(a + b) == Concat(a) + Concat(b)
    decreases |b|
  {
    if b == [] {
      assert a + b == a;
    } else {
      var c, init, last := a + b, b[..|b| - 1], b[|b| - 1];
      assert c[..|c| - 1] == a + init && c[|c| - 1] == last;
      assert Concat(c) == Concat(a + init) + last;
      ConcatAppend(a, init);
      assert Concat(b) == Concat(init) + last;
    }
  }

  lemma ConcatOne(x: string)
    ensures Concat([x]) == x
  {
    assert [x][..0] == [];
  }

  /** A joined text is the parts before the k-th, the k-th, and the parts after. */
  lemma ConcatSplit(parts: seq<string>, k: nat)
    requires k < |parts|
    ensures Concat(parts) == Concat(parts[..k]) + parts[k] + Concat(parts[k + 1..])
  {
    SplitAt(parts, k);
    ConcatAround(parts[..k], parts[k], parts[k + 1..]);
  }

  lemma SplitAt<T>(s: seq<T>, k: nat)
    requires k < |s|
    ensures s == (s[..k] + [s[k]]) + s[k + 1..]
  {
  }

  lemma ConcatAround(pre: seq<string>, x: string, post: seq<string>)
    ensures Concat((pre + [x]) + post) == Concat(pre) + x + Concat(post)
  {
    ConcatAppend(pre + [x], post);
    ConcatAppend(pre, [x]);
    ConcatOne(x);
  }

  /** `f` applied to each element, in order. */
  function MapSeq<A, B>(f: A -> B, s: seq<A>): seq<B>
  {
    seq(|s|, k requires 0 <= k < |s| => f(s[k]))
  }

  lemma MapSeqAppend<A, B>(f: A -> B, a: seq<A>, b: seq<A>)
    ensures MapSeq(f, a + b) == MapSeq(f, a) + MapSeq(f, b)
  {
    forall k | 0 <= k < |a| + |b|
      ensures MapSeq(f, a + b)[k] == (MapSeq(f, a) + MapSeq(f, b))[k]
    {
      if k >= |a| {
        assert (a + b)[k] == b[k - |a|];
      }
    }
  }

  /** Case-insensitive substring test: SQL `x ILIKE '%needle%'` with the
      pattern characters taken literally. */
  function ContainsFolded(hay: string, needle: string): bool
  {
    IsSubstring(Lower(needle), Lower(hay))
  }
}
