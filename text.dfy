/** The java.lang.String operations the grid formatters and the look-and-feel
    resolution rely on, over strings as sequences of characters. */
module Text {

  /** `n` copies of the character `c`. */
  function Repeat(c: char, n: nat): (r: string)
    ensures |r| == n
    ensures forall i :: 0 <= i < n ==> r[i] == c
  {
    seq(n, _ => c)
  }

  function Spaces(n: nat): string
  {
    Repeat(' ', n)
  }

  /** One more copy at the end, as a loop appending the character builds it. */
  lemma RepeatSnoc(c: char, n: nat)
    ensures Repeat(c, n + 1) == Repeat(c, n) + [c]
  {
  }

  /** The text a StringBuilder holds after the parts were appended in order. */
  function Concat(parts: seq<string>): string
  {
    if parts == [] then "" else parts[0] + Concat(parts[1..])
  }

  /** Appending one more part appends its text. */
  lemma {:induction false} ConcatSnoc(parts: seq<string>, last: string)
    ensures Concat(parts + [last]) == Concat(parts) + last
  {
    if parts != [] {
      assert (parts + [last])[1..] == parts[1..] + [last];
      ConcatSnoc(parts[1..], last);
    }
  }

  /** The text of thirteen parts, written out as the appends that build it. */
  lemma ConcatThirteen(ls: seq<string>)
    requires |ls| == 13
    ensures Concat(ls) == "" + ls[0] + ls[1] + ls[2] + ls[3] + ls[4] + ls[5] + ls[6]
      + ls[7] + ls[8] + ls[9] + ls[10] + ls[11] + ls[12]
  {
    assert ls[..0] == [];
    ConcatPrefix(ls, 0);
    ConcatPrefix(ls, 1);
    ConcatPrefix(ls, 2);
    ConcatPrefix(ls, 3);
    ConcatPrefix(ls, 4);
    ConcatPrefix(ls, 5);
    ConcatPrefix(ls, 6);
    ConcatPrefix(ls, 7);
    ConcatPrefix(ls, 8);
    ConcatPrefix(ls, 9);
    ConcatPrefix(ls, 10);
    ConcatPrefix(ls, 11);
    ConcatPrefix(ls, 12);
    assert ls[..13] == ls;
  }

  /** The text of the first `k + 1` parts is that of the first `k`, then part `k`. */
  lemma ConcatPrefix(ls: seq<string>, k: nat)
    requires k < |ls|
    ensures Concat(ls[..k + 1]) == Concat(ls[..k]) + ls[k]
  {
    assert ls[..k + 1] == ls[..k] + [ls[k]];
    ConcatSnoc(ls[..k], ls[k]);
  }

  /** When every part has width `w`, the text is `|parts| * w` long. */
  lemma {:induction false} ConcatLength(parts: seq<string>, w: nat)
    requires forall j :: 0 <= j < |parts| ==> |parts[j]| == w
    ensures |Concat(parts)| == |parts| * w
  {
    if parts != [] {
      ConcatLength(parts[1..], w);
    }
  }

  /** When every part has width `w`, part `i` occupies positions `i*w` to `i*w + w`. */
  lemma {:induction false} ConcatAt(parts: seq<string>, w: nat, i: nat)
    requires forall j :: 0 <= j < |parts| ==> |parts[j]| == w
    requires i < |parts|
    ensures |Concat(parts)| == |parts| * w
    ensures i * w + w <= |Concat(parts)|
    ensures Concat(parts)[i * w .. i * w + w] == parts[i]
  {
    ConcatLength(parts, w);
    var rest := parts[1..];
    var c := Concat(rest);
    assert Concat(parts) == parts[0] + c;
    ConcatLength(rest, w);
    if i > 0 {
      ConcatAt(rest, w, i - 1);
      var j := (i - 1) * w;
      assert i * w == w + j by { MulPred(i, w); }
      assert rest[i - 1] == parts[i];
      SliceAfter(parts[0], c, j, w);
    } else {
      assert (parts[0] + c)[..w] == parts[0];
    }
  }

  /** `i * w` is `w` more than `(i - 1) * w`. */
  lemma MulPred(i: nat, w: nat)
    requires i > 0
    ensures i * w == w + (i - 1) * w
  {
  }

  /** A slice of the second part of a concatenation, indexed from the start of the whole. */
  lemma SliceAfter(a: string, b: string, j: nat, n: nat)
    requires j + n <= |b|
    ensures (a + b)[|a| + j .. |a| + j + n] == b[j .. j + n]
  {
  }

  /** A slice equal to `t` holds the characters of `t`. */
  lemma SliceChars(s: string, base: nat, t: string)
    requires base + |t| <= |s| && s[base..base + |t|] == t
    ensures forall k :: 0 <= k < |t| ==> s[base + k] == t[k]
  {
    forall k | 0 <= k < |t| ensures s[base + k] == t[k] {
      assert s[base..base + |t|][k] == s[base + k];
    }
  }

  /** Characters equal to those of `t` form a slice equal to `t`. */
  lemma CharsSlice(s: string, base: nat, t: string)
    requires base + |t| <= |s|
    requires forall k :: 0 <= k < |t| ==> s[base + k] == t[k]
    ensures s[base..base + |t|] == t
  {
  }

  /** Java's `s.endsWith(suffix)`. */
  predicate EndsWith(s: string, suffix: string)
  {
    |suffix| <= |s| && s[|s| - |suffix|..] == suffix
  }

  /** Java's `s.contains(t)`. */
  predicate Contains(s: string, t: string)
  {
    exists i :: 0 <= i <= |s| - |t| && OccursAt(s, t, i)
  }

  predicate OccursAt(s: string, t: string, i: nat)
    requires i + |t| <= |s|
  {
    s[i..i + |t|] == t
  }

  /** Java's `s.lastIndexOf(c)`: the last position holding `c`, or -1. */
  function LastIndexOf(s: string, c: char): (r: int)
    ensures -1 <= r < |s|
    ensures r >= 0 ==> s[r] == c
    ensures forall i :: r < i < |s| ==> s[i] != c
  {
    if s == [] then -1
    else if s[|s| - 1] == c then |s| - 1
    else LastIndexOf(s[..|s| - 1], c)
  }

  /** Java's `Character.isDigit`, restricted to the ASCII digits. */
  predicate IsDigit(c: char)
  {
    '0' <= c <= '9'
  }

  /** Every field of `s` between single spaces, empty fields included. */
  function SplitAll(s: string): (r: seq<string>)
    ensures |r| >= 1
  {
    if s == "" then [""]
    else
      var rest := SplitAll(s[1..]);
      if s[0] == ' ' then [""] + rest else [[s[0]] + rest[0]] + rest[1..]
  }

  /** No field contains a space. */
  lemma {:induction false} SplitAllNoSpaceInFields(s: string)
    ensures forall k :: 0 <= k < |SplitAll(s)| ==> ' ' !in SplitAll(s)[k]
  {
    if s != "" {
      SplitAllNoSpaceInFields(s[1..]);
      var rest := SplitAll(s[1..]);
      if s[0] != ' ' {
        var r := SplitAll(s);
        assert r == [[s[0]] + rest[0]] + rest[1..];
        assert ' ' !in [s[0]] + rest[0];
        forall k | 1 <= k < |r| ensures ' ' !in r[k] {
          assert r[k] == rest[k];
        }
      }
    }
  }

  /** The fields joined back with single spaces. */
  function JoinSpaces(parts: seq<string>): string
    requires |parts| >= 1
  {
    if |parts| == 1 then parts[0] else parts[0] + " " + JoinSpaces(parts[1..])
  }

  /** Joining the fields with spaces gives back the split string. */
  lemma {:induction false} JoinSplitAll(s: string)
    ensures JoinSpaces(SplitAll(s)) == s
  {
    if s != "" {
      JoinSplitAll(s[1..]);
      var rest := SplitAll(s[1..]);
      if s[0] == ' ' {
        JoinLeadingEmpty(rest);
        assert s == " " + s[1..];
      } else {
        JoinExtendFirst(s[0], rest);
        assert s == [s[0]] + s[1..];
      }
    }
  }

  /** An empty first field joins as a leading space. */
  lemma JoinLeadingEmpty(rest: seq<string>)
    requires |rest| >= 1
    ensures JoinSpaces([""] + rest) == " " + JoinSpaces(rest)
  {
    assert ([""] + rest)[1..] == rest;
  }

  /** A character prepended to the first field is prepended to the joined text. */
  lemma {:induction false} JoinExtendFirst(c: char, rest: seq<string>)
    requires |rest| >= 1
    ensures JoinSpaces([[c] + rest[0]] + rest[1..]) == [c] + JoinSpaces(rest)
  {
    var head, tail := rest[0], rest[1..];
    assert [head] + tail == rest;
    JoinCons([c] + head, tail);
    JoinCons(head, tail);
    if tail != [] {
      var j := JoinSpaces(tail);
      assert ([c] + head) + " " + j == [c] + (head + " " + j);
    }
  }

  /** Joining a first field and the remaining fields. */
  lemma {:induction false} JoinCons(first: string, tail: seq<string>)
    ensures JoinSpaces([first] + tail)
         == if tail == [] then first else first + " " + JoinSpaces(tail)
  {
    if tail != [] {
      assert ([first] + tail)[1..] == tail;
    }
  }

  /** A space splits the text into the fields before it and the fields after it. */
  lemma {:induction false} SplitAllAppend(a: string, b: string)
    ensures SplitAll(a + " " + b) == SplitAll(a) + SplitAll(b)
  {
    var s := a + " " + b;
    if a == "" {
      assert s[1..] == b by { assert s == " " + b; }
    } else {
      assert s[1..] == a[1..] + " " + b;
      SplitAllAppend(a[1..], b);
      SplitAllStep(a, s, SplitAll(b));
    }
  }

  /** One step of SplitAllAppend: strings that agree on their first character and whose
      tails split alike, up to a common list of trailing fields, split alike too. */
  lemma SplitAllStep(a: string, s: string, tailFields: seq<string>)
    requires a != "" && s != "" && s[0] == a[0]
    requires SplitAll(s[1..]) == SplitAll(a[1..]) + tailFields
    ensures SplitAll(s) == SplitAll(a) + tailFields
  {
    var ra := SplitAll(a[1..]);
    var rs := SplitAll(s[1..]);
    if a[0] != ' ' {
      assert rs[0] == ra[0];
      assert rs[1..] == ra[1..] + tailFields;
    }
  }

  /** The fields of a string without spaces are the string itself. */
  lemma {:induction false} SplitAllNoSpace(s: string)
    requires ' ' !in s
    ensures SplitAll(s) == [s]
  {
    if s != "" {
      assert ' ' !in s[1..] by {
        forall k | 0 <= k < |s| - 1 ensures s[1..][k] != ' ' {
          assert s[1..][k] == s[k + 1];
        }
      }
      SplitAllNoSpace(s[1..]);
      assert [s[0]] + s[1..] == s;
    }
  }

  /** The array Java's `String.split` leaves once trailing empty strings are removed. */
  function DropTrailingEmpty(parts: seq<string>): (r: seq<string>)
    ensures |r| <= |parts| && r == parts[..|r|]
    ensures forall k :: |r| <= k < |parts| ==> parts[k] == ""
    ensures r != [] ==> r[|r| - 1] != ""
  {
    if parts != [] && parts[|parts| - 1] == "" then DropTrailingEmpty(parts[..|parts| - 1]) else parts
  }

  /** Java's `s.split(" ")`: a string without a space comes back whole (so "" gives [""]);
      otherwise the fields between spaces, without the empty ones at the end. */
  function JavaSplit(s: string): (r: seq<string>)
    ensures forall k :: 0 <= k < |r| ==> ' ' !in r[k]
  {
    if ' ' !in s then [s]
    else
      SplitAllNoSpaceInFields(s);
      DropTrailingEmpty(SplitAll(s))
  }
}
