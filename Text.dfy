/**
 * String helpers shared by the team operations and the brief generator:
 * Python's `str.strip()`, `str.split(sep)` and `sep.join(parts)`, and the
 * "split on commas, strip each piece, drop the empty ones" comprehension
 * that both scripts use to read comma-separated arguments.
 */
module Text {

  /** The characters Python's `str.isspace()` accepts, which `str.strip()` removes. */
  predicate IsSpace(c: char) {
    c in Whitespace
  }

  const Whitespace: set<char> :=
    {' ', '\t', '\n', '\r', '\U{000B}', '\U{000C}',
     '\U{001C}', '\U{001D}', '\U{001E}', '\U{001F}',
     '\U{0085}', '\U{00A0}', '\U{1680}',
     '\U{2000}', '\U{2001}', '\U{2002}', '\U{2003}', '\U{2004}', '\U{2005}',
     '\U{2006}', '\U{2007}', '\U{2008}', '\U{2009}', '\U{200A}',
     '\U{2028}', '\U{2029}', '\U{202F}', '\U{205F}', '\U{3000}'}

  predicate AllSpace(s: string) {
    forall i :: 0 <= i < |s| ==> IsSpace(s[i])
  }

  /** Neither end of `s` is whitespace: `strip()` leaves it as it is. */
  predicate IsStripped(s: string) {
    s == [] || (!IsSpace(s[0]) && !IsSpace(s[|s| - 1]))
  }

  /** The number of whitespace characters `s` starts with. */
  function LeadingSpaces(s: string): (n: nat)
    ensures n <= |s|
  {
    if s != [] && IsSpace(s[0]) then 1 + LeadingSpaces(s[1..]) else 0
  }

  /** The number of whitespace characters `s` ends with. */
  function TrailingSpaces(s: string): (n: nat)
    ensures n <= |s|
  {
    if s != [] && IsSpace(s[|s| - 1]) then 1 + TrailingSpaces(s[..|s| - 1]) else 0
  }

  /** `s.strip()`: `s` without its leading and then its trailing whitespace. */
  function Strip(s: string): string
  {
    var t := s[LeadingSpaces(s)..];
    t[..|t| - TrailingSpaces(t)]
  }

  /** The leading whitespace is all whitespace, and the character after it is not. */
  lemma {:induction false} LeadingSpacesSpec(s: string)
    ensures forall i :: 0 <= i < LeadingSpaces(s) ==> IsSpace(s[i])
    ensures LeadingSpaces(s) < |s| ==> !IsSpace(s[LeadingSpaces(s)])
  {
    if s != [] && IsSpace(s[0]) {
      LeadingSpacesSpec(s[1..]);
      forall i | 1 <= i < LeadingSpaces(s) ensures IsSpace(s[i]) {
        assert s[i] == s[1..][i - 1];
      }
    }
  }

  /** The trailing whitespace is all whitespace, and the character before it is not. */
  lemma {:induction false} TrailingSpacesSpec(s: string)
    ensures forall i :: |s| - TrailingSpaces(s) <= i < |s| ==> IsSpace(s[i])
    ensures TrailingSpaces(s) < |s| ==> !IsSpace(s[|s| - TrailingSpaces(s) - 1])
  {
    if s != [] && IsSpace(s[|s| - 1]) {
      var init := s[..|s| - 1];
      TrailingSpacesSpec(init);
      forall i | |s| - TrailingSpaces(s) <= i < |s| - 1 ensures IsSpace(s[i]) {
        assert s[i] == init[i];
      }
      if TrailingSpaces(s) < |s| {
        assert s[|s| - TrailingSpaces(s) - 1] == init[|init| - TrailingSpaces(init) - 1];
      }
    }
  }

  /**
   * `strip()` removes whitespace only: the result is the slice of `s` that
   * follows the leading whitespace and is followed by whitespace only; it
   * neither starts nor ends with whitespace; and it is empty exactly when
   * `s` is blank.
   */
  lemma StripSpec(s: string)
    ensures var r, lead := Strip(s), LeadingSpaces(s);
      && lead + |r| <= |s|
      && r == s[lead..lead + |r|]
      && (forall i :: 0 <= i < lead ==> IsSpace(s[i]))
      && (forall i :: lead + |r| <= i < |s| ==> IsSpace(s[i]))
    ensures IsStripped(Strip(s))
    ensures Strip(s) == [] <==> AllSpace(s)
  {
    StripSlice(s);
    StripEnds(s);
    StripBlank(s);
  }

  lemma StripSlice(s: string)
    ensures var r, lead := Strip(s), LeadingSpaces(s);
      && lead + |r| <= |s|
      && r == s[lead..lead + |r|]
      && (forall i :: 0 <= i < lead ==> IsSpace(s[i]))
      && (forall i :: lead + |r| <= i < |s| ==> IsSpace(s[i]))
  {
    var lead := LeadingSpaces(s);
    var t := s[lead..];
    var n := |t| - TrailingSpaces(t);
    assert Strip(s) == t[..n];
    LeadingSpacesSpec(s);
    TrailingSpacesSpec(t);
    SliceOfSuffix(s, lead, n);
    SpaceShift(s, lead, n);
  }

  /** A prefix of a suffix is a slice. */
  lemma SliceOfSuffix(s: string, lead: nat, n: nat)
    requires lead + n <= |s|
    ensures s[lead..][..n] == s[lead..lead + n]
  {
  }

  /** Whitespace at the end of a suffix is whitespace at the end of the whole. */
  lemma SpaceShift(s: string, lead: nat, n: nat)
    requires lead + n <= |s|
    requires forall i :: n <= i < |s[lead..]| ==> IsSpace(s[lead..][i])
    ensures forall i :: lead + n <= i < |s| ==> IsSpace(s[i])
  {
    forall i | lead + n <= i < |s| ensures IsSpace(s[i]) {
      assert s[i] == s[lead..][i - lead];
    }
  }

  lemma StripEnds(s: string)
    ensures IsStripped(Strip(s))
  {
    var lead := LeadingSpaces(s);
    var t := s[lead..];
    var trail := TrailingSpaces(t);
    var r := t[..|t| - trail];
    assert r == Strip(s);
    if r != [] {
      LeadingSpacesSpec(s);
      TrailingSpacesSpec(t);
      assert r[0] == s[lead];
      assert r[|r| - 1] == t[|t| - trail - 1];
    }
  }

  lemma StripBlank(s: string)
    ensures Strip(s) == [] <==> AllSpace(s)
  {
    StripSlice(s);
    var r, lead := Strip(s), LeadingSpaces(s);
    if r != [] {
      StripEnds(s);
      assert r[0] == s[lead];
    }
  }

  /** An already stripped string is its own `strip()`. */
  lemma StripOfStripped(s: string)
    requires IsStripped(s)
    ensures Strip(s) == s
  {
    assert LeadingSpaces(s) == 0;
    assert s[0..] == s;
    assert TrailingSpaces(s) == 0;
    assert s[..|s|] == s;
  }

  /** Stripping twice is stripping once. */
  lemma StripIdempotent(s: string)
    ensures Strip(Strip(s)) == Strip(s)
  {
    StripSpec(s);
    StripOfStripped(Strip(s));
  }

  /** `sep.join(parts)`; the join of no parts is the empty string. */
  function Join(parts: seq<string>, sep: string): string
  {
    if |parts| == 0 then ""
    else if |parts| == 1 then parts[0]
    else parts[0] + sep + Join(parts[1..], sep)
  }

  /** The number of occurrences of `c` in `s`. */
  function Count(s: string, c: char): nat {
    if s == [] then 0 else (if s[0] == c then 1 else 0) + Count(s[1..], c)
  }

  /**
   * `s.split(sep)` with a one-character separator: the pieces between the
   * separators, in order. There is always one piece more than there are
   * separators (`"".split(",")` is `[""]`).
   */
  function Split(s: string, sep: char): (parts: seq<string>)
    ensures |parts| == Count(s, sep) + 1
  {
    if s == [] then [""]
    else
      var rest := Split(s[1..], sep);
      if s[0] == sep then [""] + rest else [[s[0]] + rest[0]] + rest[1..]
  }

  /** No piece holds the separator, and joining the pieces with it gives `s` back. */
  lemma {:induction false} SplitPieces(s: string, sep: char)
    ensures forall k :: 0 <= k < |Split(s, sep)| ==> sep !in Split(s, sep)[k]
    ensures Join(Split(s, sep), [sep]) == s
  {
    if s != [] {
      SplitPieces(s[1..], sep);
      var rest := Split(s[1..], sep);
      var parts := Split(s, sep);
      assert s == [s[0]] + s[1..];
      if s[0] == sep {
        assert parts[1..] == rest;
        assert Join(parts, [sep]) == [sep] + Join(rest, [sep]);
      } else {
        var head := [s[0]] + rest[0];
        assert parts[1..] == rest[1..];
        assert sep !in head by {
          assert forall i :: 1 <= i < |head| ==> head[i] == rest[0][i - 1];
        }
        assert Join(parts, [sep]) == [s[0]] + Join(rest, [sep]) by {
          if |rest| > 1 {
            assert Join(rest, [sep]) == rest[0] + [sep] + Join(rest[1..], [sep]);
          }
        }
      }
    }
  }

  /** `split` undoes `join` when no part holds the separator. */
  lemma {:induction false} SplitJoin(parts: seq<string>, sep: char)
    requires |parts| >= 1
    requires forall k :: 0 <= k < |parts| ==> sep !in parts[k]
    ensures Split(Join(parts, [sep]), sep) == parts
  {
    if |parts| == 1 {
      SplitNoSep(parts[0], sep);
    } else {
      SplitJoin(parts[1..], sep);
      SplitPrefix(parts[0], Join(parts[1..], [sep]), sep);
      assert parts == [parts[0]] + parts[1..];
    }
  }

  /** A string without the separator splits into itself alone. */
  lemma {:induction false} SplitNoSep(s: string, sep: char)
    requires sep !in s
    ensures Split(s, sep) == [s]
  {
    if s != [] {
      assert sep !in s[1..] by { assert forall k :: 0 <= k < |s[1..]| ==> s[1..][k] == s[k + 1]; }
      SplitNoSep(s[1..], sep);
      assert s == [s[0]] + s[1..];
    }
  }

  /** Splitting `p + sep + rest`, where `p` has no separator, puts `p` first. */
  lemma {:induction false} SplitPrefix(p: string, rest: string, sep: char)
    requires sep !in p
    ensures Split(p + [sep] + rest, sep) == [p] + Split(rest, sep)
  {
    if p == [] {
      assert [sep] + rest == p + [sep] + rest;
      assert ([sep] + rest)[1..] == rest;
    } else {
      assert sep !in p[1..] by { assert forall k :: 0 <= k < |p[1..]| ==> p[1..][k] == p[k + 1]; }
      SplitPrefix(p[1..], rest, sep);
      assert (p + [sep] + rest)[1..] == p[1..] + [sep] + rest;
      assert p == [p[0]] + p[1..];
    }
  }

  /** Splitting at a separator splits the two sides independently. */
  lemma {:induction false} SplitAppend(a: string, b: string, sep: char)
    ensures Split(a + [sep] + b, sep) == Split(a, sep) + Split(b, sep)
  {
    if a == [] {
      SplitCons(sep, b, sep);
      assert a + [sep] + b == [sep] + b;
    } else {
      SplitAppend(a[1..], b, sep);
      SplitAppendStep(a[0], a[1..], b, sep);
      assert a == [a[0]] + a[1..];
      assert a + [sep] + b == [a[0]] + (a[1..] + [sep] + b);
    }
  }

  /** The inductive step of `SplitAppend`: one more character in front. */
  lemma SplitAppendStep(c: char, a: string, b: string, sep: char)
    requires Split(a + [sep] + b, sep) == Split(a, sep) + Split(b, sep)
    ensures Split([c] + (a + [sep] + b), sep) == Split([c] + a, sep) + Split(b, sep)
  {
    SplitCons(c, a + [sep] + b, sep);
    SplitCons(c, a, sep);
    PrependAppend(c, Split(a, sep), Split(b, sep), sep);
  }

  /** How `split` reads one more character `c` in front of pieces already split. */
  function Prepend(c: char, parts: seq<string>, sep: char): seq<string>
    requires parts != []
  {
    if c == sep then [""] + parts else [[c] + parts[0]] + parts[1..]
  }

  /** Reading a character in front commutes with appending more pieces. */
  lemma PrependAppend(c: char, ra: seq<string>, rb: seq<string>, sep: char)
    requires ra != []
    ensures Prepend(c, ra + rb, sep) == Prepend(c, ra, sep) + rb
  {
    if c == sep {
      SeqAssoc([""], ra, rb);
    } else {
      assert (ra + rb)[0] == ra[0];
      assert (ra + rb)[1..] == ra[1..] + rb;
    }
  }

  /** How `split` treats the first character. */
  lemma SplitCons(c: char, t: string, sep: char)
    ensures Split([c] + t, sep) == Prepend(c, Split(t, sep), sep)
  {
    assert ([c] + t)[1..] == t;
  }

  /** `[x.strip() for x in parts]`. */
  function StripAll(parts: seq<string>): (r: seq<string>)
    ensures |r| == |parts|
  {
    seq(|parts|, i requires 0 <= i < |parts| => Strip(parts[i]))
  }

  /** Concatenation is associative. */
  lemma SeqAssoc<T>(x: seq<T>, y: seq<T>, z: seq<T>)
    ensures x + (y + z) == (x + y) + z
  {
  }

  /** `[x for x in xs if x]`: the non-empty strings of `xs`, in order. */
  function DropEmpty(xs: seq<string>): (r: seq<string>)
    ensures |r| <= |xs|
  {
    if xs == [] then [] else (if xs[0] != [] then [xs[0]] else []) + DropEmpty(xs[1..])
  }

  /** Filtering keeps exactly the non-empty elements: each one is from `xs`, and none is empty. */
  lemma {:induction false} DropEmptyItems(xs: seq<string>)
    ensures forall k :: 0 <= k < |DropEmpty(xs)| ==> DropEmpty(xs)[k] != [] && DropEmpty(xs)[k] in xs
    ensures DropEmpty(xs) == [] <==> forall k :: 0 <= k < |xs| ==> xs[k] == []
  {
    if xs != [] {
      DropEmptyItems(xs[1..]);
      assert forall k :: 1 <= k < |xs| ==> xs[k] == xs[1..][k - 1];
    }
  }

  /** Filtering distributes over concatenation, so it keeps the input order. */
  lemma {:induction false} DropEmptyAppend(a: seq<string>, b: seq<string>)
    ensures DropEmpty(a + b) == DropEmpty(a) + DropEmpty(b)
  {
    if a == [] {
      assert a + b == b;
    } else {
      DropEmptyAppend(a[1..], b);
      var ab := a + b;
      assert ab != [];
      assert ab[0] == a[0] && ab[1..] == a[1..] + b;
      var head := if a[0] != [] then [a[0]] else [];
      var ra, rb := DropEmpty(a[1..]), DropEmpty(b);
      assert DropEmpty(ab) == head + (ra + rb);
      assert DropEmpty(a) == head + ra;
      SeqAssoc(head, ra, rb);
    }
  }

  /** Filtering a list with no empty string changes nothing. */
  lemma {:induction false} DropEmptyNoEmpty(xs: seq<string>)
    requires forall k :: 0 <= k < |xs| ==> xs[k] != []
    ensures DropEmpty(xs) == xs
  {
    if xs != [] {
      DropEmptyNoEmpty(xs[1..]);
      assert xs == [xs[0]] + xs[1..];
    }
  }

  /** The comprehension `[x.strip() for x in parts if x.strip()]`. */
  function CleanPieces(parts: seq<string>): seq<string>
  {
    DropEmpty(StripAll(parts))
  }

  /**
   * Every item the comprehension yields is non-empty and stripped, and it
   * yields nothing exactly when every piece is blank.
   */
  lemma CleanPiecesItems(parts: seq<string>)
    ensures forall k :: 0 <= k < |CleanPieces(parts)| ==>
              CleanPieces(parts)[k] != [] && IsStripped(CleanPieces(parts)[k])
    ensures CleanPieces(parts) == [] <==> forall k :: 0 <= k < |parts| ==> AllSpace(parts[k])
  {
    var stripped := StripAll(parts);
    DropEmptyItems(stripped);
    forall k | 0 <= k < |parts| ensures IsStripped(stripped[k]) && (stripped[k] == [] <==> AllSpace(parts[k])) {
      StripSpec(parts[k]);
    }
  }

  /** No cleaned item holds a character that none of the pieces holds. */
  lemma CleanPiecesAvoid(parts: seq<string>, c: char)
    requires forall k :: 0 <= k < |parts| ==> c !in parts[k]
    ensures forall k :: 0 <= k < |CleanPieces(parts)| ==> c !in CleanPieces(parts)[k]
  {
    var stripped := StripAll(parts);
    DropEmptyItems(stripped);
    forall k | 0 <= k < |parts| ensures c !in stripped[k] {
      StripSpec(parts[k]);
      var lead := LeadingSpaces(parts[k]);
      assert forall i :: 0 <= i < |stripped[k]| ==> stripped[k][i] == parts[k][lead + i];
    }
  }

  /** Cleaning distributes over concatenation: items keep their input order. */
  lemma CleanPiecesAppend(a: seq<string>, b: seq<string>)
    ensures CleanPieces(a + b) == CleanPieces(a) + CleanPieces(b)
  {
    StripAllAppend(a, b);
    DropEmptyAppend(StripAll(a), StripAll(b));
  }

  lemma StripAllAppend(a: seq<string>, b: seq<string>)
    ensures StripAll(a + b) == StripAll(a) + StripAll(b)
  {
    var l, r := StripAll(a + b), StripAll(a) + StripAll(b);
    forall k | 0 <= k < |l| ensures l[k] == r[k] {
      if k < |a| {
        assert (a + b)[k] == a[k];
      } else {
        assert (a + b)[k] == b[k - |a|];
      }
    }
  }

  /** `[x.strip() for x in s.split(",") if x.strip()]`. */
  function SplitClean(s: string): seq<string>
  {
    CleanPieces(Split(s, ','))
  }

  /**
   * The items of `SplitClean(s)` are non-empty, stripped and comma-free,
   * and there are none exactly when `s` holds nothing but commas and
   * whitespace.
   */
  lemma SplitCleanItems(s: string)
    ensures forall k :: 0 <= k < |SplitClean(s)| ==>
              SplitClean(s)[k] != [] && IsStripped(SplitClean(s)[k]) && ',' !in SplitClean(s)[k]
    ensures SplitClean(s) == [] <==> forall i :: 0 <= i < |s| ==> s[i] == ',' || IsSpace(s[i])
  {
    SplitBlank(s, ',');
    SplitPieces(s, ',');
    CleanPiecesItems(Split(s, ','));
    CleanPiecesAvoid(Split(s, ','), ',');
  }

  /** Items on either side of a comma come out in their input order. */
  lemma SplitCleanAppend(a: string, b: string)
    ensures SplitClean(a + "," + b) == SplitClean(a) + SplitClean(b)
  {
    SplitAppend(a, b, ',');
    CleanPiecesAppend(Split(a, ','), Split(b, ','));
  }

  /** Every piece is blank. */
  predicate AllBlank(parts: seq<string>) {
    forall k :: 0 <= k < |parts| ==> AllSpace(parts[k])
  }

  /** Every character is the separator or whitespace. */
  predicate SepOrSpace(s: string, sep: char) {
    forall i :: 0 <= i < |s| ==> s[i] == sep || IsSpace(s[i])
  }

  /** Every piece of `s.split(sep)` is blank exactly when `s` is all separators and whitespace. */
  lemma {:induction false} SplitBlank(s: string, sep: char)
    ensures AllBlank(Split(s, sep)) <==> SepOrSpace(s, sep)
  {
    if s != [] {
      SplitBlank(s[1..], sep);
      SepOrSpaceCons(s, sep);
      var rest := Split(s[1..], sep);
      if s[0] == sep {
        AllBlankCons("", rest);
      } else {
        AllBlankCons([s[0]] + rest[0], rest[1..]);
        AllSpaceCons(s[0], rest[0]);
        AllBlankCons(rest[0], rest[1..]);
        assert rest == [rest[0]] + rest[1..];
      }
    }
  }

  lemma AllSpaceCons(c: char, x: string)
    ensures AllSpace([c] + x) <==> IsSpace(c) && AllSpace(x)
  {
    var cx := [c] + x;
    assert cx[0] == c;
    assert forall i :: 1 <= i < |cx| ==> cx[i] == x[i - 1];
    assert forall i :: 0 <= i < |x| ==> x[i] == cx[i + 1];
  }

  lemma AllBlankCons(p: string, ps: seq<string>)
    ensures AllBlank([p] + ps) <==> AllSpace(p) && AllBlank(ps)
  {
    var pps := [p] + ps;
    assert pps[0] == p;
    assert forall k :: 1 <= k < |pps| ==> pps[k] == ps[k - 1];
    assert forall k :: 0 <= k < |ps| ==> ps[k] == pps[k + 1];
  }

  lemma SepOrSpaceCons(s: string, sep: char)
    requires s != []
    ensures SepOrSpace(s, sep) <==> (s[0] == sep || IsSpace(s[0])) && SepOrSpace(s[1..], sep)
  {
    assert forall i :: 1 <= i < |s| ==> s[i] == s[1..][i - 1];
  }

  /** Splitting a comma-join of clean items gives the items back, in order. */
  lemma SplitCleanJoin(items: seq<string>)
    requires forall k :: 0 <= k < |items| ==> items[k] != [] && IsStripped(items[k]) && ',' !in items[k]
    ensures SplitClean(Join(items, ",")) == items
  {
    if items == [] {
      assert Split("", ',') == [""];
      assert Strip("") == "";
    } else {
      SplitJoin(items, ',');
      CleanStrippedPieces(items);
    }
  }

  /** Cleaning pieces that are already stripped and non-empty changes nothing. */
  lemma CleanStrippedPieces(items: seq<string>)
    requires forall k :: 0 <= k < |items| ==> items[k] != [] && IsStripped(items[k])
    ensures CleanPieces(items) == items
  {
    forall k | 0 <= k < |items| ensures Strip(items[k]) == items[k] {
      StripOfStripped(items[k]);
    }
    assert StripAll(items) == items;
    DropEmptyNoEmpty(items);
  }

  /** The concatenation of all `pieces`. */
  function Concat(pieces: seq<string>): string
  {
    if pieces == [] then "" else pieces[0] + Concat(pieces[1..])
  }

  /** `t` occurs in `s` as a contiguous slice. */
  ghost predicate Contains(s: string, t: string) {
    exists i :: OccursAt(s, t, i)
  }

  /** `t` occurs in `s` starting at index `i`. */
  predicate OccursAt(s: string, t: string, i: int) {
    0 <= i <= |s| - |t| && s[i..i + |t|] == t
  }

  /** Concatenation distributes over appending lists of pieces. */
  lemma {:induction false} ConcatAppend(a: seq<string>, b: seq<string>)
    ensures Concat(a + b) == Concat(a) + Concat(b)
  {
    if a == [] {
      assert a + b == b;
    } else {
      ConcatAppend(a[1..], b);
      var ab := a + b;
      assert ab != [];
      assert ab[0] == a[0] && ab[1..] == a[1..] + b;
      var ca, cb := Concat(a[1..]), Concat(b);
      assert Concat(ab) == a[0] + (ca + cb);
      assert Concat(a) == a[0] + ca;
      SeqAssoc(a[0], ca, cb);
    }
  }

  /** The concatenation of `pieces[k..j]` starts where that of `pieces[..k]` ends. */
  lemma ConcatOccursRange(pieces: seq<string>, k: nat, j: nat)
    requires k <= j <= |pieces|
    ensures OccursAt(Concat(pieces), Concat(pieces[k..j]), |Concat(pieces[..k])|)
  {
    var before, range, after := pieces[..k], pieces[k..j], pieces[j..];
    SplitThree(pieces, k, j);
    ConcatAppend(before + range, after);
    ConcatAppend(before, range);
    SliceOfConcat(Concat(before), Concat(range), Concat(after));
  }

  /** An occurrence of `t` is one of anything equal to `t`. */
  lemma OccursContains(s: string, t: string, u: string, i: int)
    requires OccursAt(s, t, i) && t == u
    ensures Contains(s, u)
  {
  }

  /** A sequence is its parts before `k`, from `k` to `j`, and from `j` on. */
  lemma SplitThree<T>(xs: seq<T>, k: nat, j: nat)
    requires k <= j <= |xs|
    ensures xs == xs[..k] + xs[k..j] + xs[j..]
  {
  }

  /** The middle part of `pre + mid + post` sits right after `pre`. */
  lemma SliceOfConcat(pre: string, mid: string, post: string)
    ensures (pre + mid + post)[|pre|..|pre| + |mid|] == mid
  {
  }

  /** A single piece concatenates to itself. */
  lemma ConcatOne(x: string)
    ensures Concat([x]) == x
  {
    assert [x][1..] == [];
  }

  /** The concatenation starts with the first two pieces. */
  lemma ConcatOpening(pieces: seq<string>)
    requires |pieces| >= 2
    ensures Concat(pieces) == pieces[0] + pieces[1] + Concat(pieces[2..])
  {
    assert pieces[1..][0] == pieces[1] && pieces[1..][1..] == pieces[2..];
  }

  /** `Concat(pieces)` contains each two consecutive pieces. */
  lemma ConcatContainsPair(pieces: seq<string>, k: nat)
    requires k + 2 <= |pieces|
    ensures Contains(Concat(pieces), pieces[k] + pieces[k + 1])
  {
    ConcatOccursRange(pieces, k, k + 2);
    ConcatPairSlice(pieces, k);
    OccursContains(Concat(pieces), Concat(pieces[k..k + 2]), pieces[k] + pieces[k + 1], |Concat(pieces[..k])|);
  }

  lemma ConcatPairSlice(pieces: seq<string>, k: nat)
    requires k + 2 <= |pieces|
    ensures Concat(pieces[k..k + 2]) == pieces[k] + pieces[k + 1]
  {
    assert pieces[k..k + 2] == [pieces[k], pieces[k + 1]];
    ConcatTwo(pieces[k], pieces[k + 1]);
  }

  /** Two pieces concatenate to their sum. */
  lemma ConcatTwo(x: string, y: string)
    ensures Concat([x, y]) == x + y
  {
    assert [x, y][1..] == [y];
    ConcatOne(y);
  }
}
