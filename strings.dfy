/**
 * The few Python string operations the extension relies on, applied to the unicode text docutils
 * hands over: `strip()`, `split(",")`, `capitalize()` and the substring test `a in b`.
 */
module Strings {

  /**
   * The characters `unicode.strip()` removes under Python 2.7 (Unicode 5.2): those whose
   * bidirectional class is WS, B or S, or whose category is Zs.
   */
  predicate IsSpace(c: char)
  {
    var n := c as int;
    (0x09 <= n <= 0x0D) || (0x1C <= n <= 0x20) || n == 0x85 || n == 0xA0 || n == 0x1680 || n == 0x180E ||
    (0x2000 <= n <= 0x200A) || n == 0x2028 || n == 0x2029 || n == 0x202F || n == 0x205F || n == 0x3000
  }

  predicate AllSpace(s: string)
  {
    forall i :: 0 <= i < |s| ==> IsSpace(s[i])
  }

  /** How many whitespace characters `s` starts with. */
  function LeadingSpace(s: string): (n: nat)
    ensures n <= |s|
    ensures forall i :: 0 <= i < n ==> IsSpace(s[i])
    ensures n == |s| || !IsSpace(s[n])
  {
    if s != [] && IsSpace(s[0]) then 1 + LeadingSpace(s[1..]) else 0
  }

  /** How many whitespace characters `s` ends with. */
  function TrailingSpace(s: string): (n: nat)
    ensures n <= |s|
    ensures forall i :: |s| - n <= i < |s| ==> IsSpace(s[i])
    ensures n == |s| || !IsSpace(s[|s| - n - 1])
  {
    if s != [] && IsSpace(s[|s| - 1]) then 1 + TrailingSpace(s[..|s| - 1]) else 0
  }

  /** Neither end of `p` is whitespace. */
  predicate Trimmed(p: string)
  {
    p == [] || (!IsSpace(p[0]) && !IsSpace(p[|p| - 1]))
  }

  /** Python's `s.strip()`: `s` without the whitespace at either end. */
  function Strip(s: string): (r: string)
    ensures Trimmed(r)
    ensures |r| <= |s|
    ensures r == [] <==> AllSpace(s)
    ensures forall c :: c in r ==> c in s
  {
    var i := LeadingSpace(s);
    if i == |s| then []
    else
      var j := |s| - TrailingSpace(s);
      assert i < j;
      var r := s[i..j];
      assert r[0] == s[i] && r[|r| - 1] == s[j - 1];
      assert forall c :: c in r ==> c in s by {
        forall c | c in r ensures c in s {
          var k :| 0 <= k < |r| && r[k] == c;
          assert s[i + k] == c;
        }
      }
      r
  }

  /** What `Strip` removes is whitespace, and what it keeps is one contiguous slice of `s`. */
  lemma StripIsSlice(s: string)
    ensures var r := Strip(s);
      exists i :: 0 <= i <= |s| - |r| && s[i..i + |r|] == r && AllSpace(s[..i]) && AllSpace(s[i + |r|..])
  {
    var r := Strip(s);
    var i := LeadingSpace(s);
    if i == |s| {
      assert s[..i] == s && s[i..i] == r;
    } else {
      var n := TrailingSpace(s);
      assert r == s[i..|s| - n];
      assert s[i..i + |r|] == r;
      var tail := s[i + |r|..];
      forall k | 0 <= k < |tail| ensures IsSpace(tail[k]) {
        assert tail[k] == s[i + |r| + k];
      }
    }
    assert forall k :: 0 <= k < |s[..i]| ==> s[..i][k] == s[k];
    assert 0 <= i <= |s| - |r| && s[i..i + |r|] == r && AllSpace(s[..i]) && AllSpace(s[i + |r|..]);
  }

  /** The position of the first `c` in `s`. */
  function IndexOf(s: string, c: char): (i: nat)
    requires c in s
    ensures i < |s| && s[i] == c && c !in s[..i]
  {
    if s[0] == c then 0 else 1 + IndexOf(s[1..], c)
  }

  /** The first `c` in `s` is the one at `i` when no `c` comes before it. */
  lemma IndexOfAt(s: string, c: char, i: nat)
    requires i < |s| && s[i] == c && c !in s[..i]
    ensures IndexOf(s, c) == i
  {
    var j := IndexOf(s, c);
    assert forall k :: 0 <= k < i ==> s[k] != c by {
      forall k | 0 <= k < i ensures s[k] != c { assert s[..i][k] == s[k]; }
    }
    assert forall k :: 0 <= k < j ==> s[k] != c by {
      forall k | 0 <= k < j ensures s[k] != c { assert s[..j][k] == s[k]; }
    }
  }

  /** Python's `s.split(sep)` for a one-character separator: never empty, pieces may be empty. */
  function Split(s: string, sep: char): (r: seq<string>)
    ensures |r| >= 1
    ensures forall p :: p in r ==> sep !in p
    decreases |s|
  {
    if sep !in s then [s]
    else
      var i := IndexOf(s, sep);
      [s[..i]] + Split(s[i + 1..], sep)
  }

  /** Python's `sep.join(pieces)`. */
  function Join(pieces: seq<string>, sep: char): string
    requires |pieces| >= 1
  {
    if |pieces| == 1 then pieces[0] else pieces[0] + [sep] + Join(pieces[1..], sep)
  }

  /** Joining the pieces of a split gives back the string. */
  lemma {:induction false} JoinSplit(s: string, sep: char)
    ensures Join(Split(s, sep), sep) == s
    decreases |s|
  {
    if sep in s {
      var i := IndexOf(s, sep);
      JoinSplit(s[i + 1..], sep);
      assert s == s[..i] + [sep] + s[i + 1..];
    }
  }

  /** Splitting a join of separator-free pieces gives back the pieces. */
  lemma {:induction false} SplitJoin(pieces: seq<string>, sep: char)
    requires |pieces| >= 1
    requires forall p :: p in pieces ==> sep !in p
    ensures Split(Join(pieces, sep), sep) == pieces
  {
    if |pieces| > 1 {
      var s := Join(pieces, sep);
      var tail := Join(pieces[1..], sep);
      assert s == pieces[0] + [sep] + tail;
      assert s[|pieces[0]|] == sep;
      assert s[..|pieces[0]|] == pieces[0];
      IndexOfAt(s, sep, |pieces[0]|);
      var i := IndexOf(s, sep);
      assert s[i + 1..] == tail;
      SplitJoin(pieces[1..], sep);
    }
  }

  /** Splitting at a separator splits the two sides independently. */
  /** Splitting at the first separator: the piece before it, then the split of the rest. */
  lemma SplitAt(s: string, sep: char, i: nat)
    requires i < |s| && s[i] == sep && sep !in s[..i]
    ensures Split(s, sep) == [s[..i]] + Split(s[i + 1..], sep)
  {
    IndexOfAt(s, sep, i);
  }

  lemma SplitConcat(a: string, b: string, sep: char)
    requires sep !in a
    ensures Split(a + [sep] + b, sep) == [a] + Split(b, sep)
  {
    var s := a + [sep] + b;
    assert s[|a|] == sep && s[..|a|] == a;
    SplitAt(s, sep, |a|);
    assert s[|a| + 1..] == b;
  }


  lemma {:induction false} SplitAppend(a: string, b: string, sep: char)
    ensures Split(a + [sep] + b, sep) == Split(a, sep) + Split(b, sep)
    decreases |a|
  {
    if sep !in a {
      SplitConcat(a, b, sep);
    } else {
      var i := IndexOf(a, sep);
      var s := a + [sep] + b;
      var rest := a[i + 1..];
      assert s[..i] == a[..i] && s[i] == sep;
      SplitAt(s, sep, i);
      SplitAt(a, sep, i);
      assert s[i + 1..] == rest + [sep] + b;
      SplitAppend(rest, b, sep);
      ConsAppend(a[..i], Split(rest, sep), Split(b, sep));
    }
  }

  /** Putting one element in front of a concatenation. */
  lemma ConsAppend<T>(x: T, u: seq<T>, v: seq<T>)
    ensures [x] + (u + v) == ([x] + u) + v
  {
  }

  lemma AppendAssociates<T>(u: seq<T>, v: seq<T>, w: seq<T>)
    ensures u + (v + w) == (u + v) + w
  {
  }

  /** A piece as the list reader keeps it: stripped, or nothing at all when blank. */
  function KeptPiece(piece: string): (r: seq<string>)
    ensures |r| <= 1
    ensures |r| == 1 ==> r[0] != [] && Trimmed(r[0])
  {
    var p := Strip(piece);
    if p == [] then [] else [p]
  }

  /** Strip every piece and drop the pieces that come out empty, keeping order. */
  function StripAndDropEmpty(pieces: seq<string>): (r: seq<string>)
    ensures |r| <= |pieces|
  {
    if pieces == [] then [] else KeptPiece(pieces[0]) + StripAndDropEmpty(pieces[1..])
  }

  /** Every piece that is kept is stripped and non-empty. */
  lemma {:induction false} KeptPiecesTrimmed(pieces: seq<string>)
    ensures forall p :: p in StripAndDropEmpty(pieces) ==> p != [] && Trimmed(p)
  {
    if pieces != [] {
      KeptPiecesTrimmed(pieces[1..]);
    }
  }

  lemma {:induction false} StripAndDropEmptyAppend(a: seq<string>, b: seq<string>)
    ensures StripAndDropEmpty(a + b) == StripAndDropEmpty(a) + StripAndDropEmpty(b)
  {
    if a != [] {
      assert (a + b)[0] == a[0];
      assert (a + b)[1..] == a[1..] + b;
      StripAndDropEmptyAppend(a[1..], b);
      AppendAssociates(KeptPiece(a[0]), StripAndDropEmpty(a[1..]), StripAndDropEmpty(b));
    } else {
      assert a + b == b;
    }
  }

  /**
   * The comma-separated list reader of the extension (`Traceable.split_tags_string` and
   * `list_of_attributes`): [] for an empty value, otherwise the pieces between commas,
   * stripped, with empty pieces dropped, in order.
   */
  function SplitCommaList(s: string): (r: seq<string>)
    ensures s == [] ==> r == []
    ensures forall p :: p in r ==> p != [] && ',' !in p && Trimmed(p)
  {
    if s == [] then []
    else
      var r := StripAndDropEmpty(Split(s, ','));
      assert forall p :: p in r ==> ',' !in p by {
        StripKeepsOut(Split(s, ','), ',');
      }
      KeptPiecesTrimmed(Split(s, ','));
      r
  }

  lemma {:induction false} StripKeepsOut(pieces: seq<string>, c: char)
    requires forall p :: p in pieces ==> c !in p
    ensures forall p :: p in StripAndDropEmpty(pieces) ==> c !in p
  {
    if pieces != [] {
      StripKeepsOut(pieces[1..], c);
    }
  }

  /** A value without commas reads as its stripped self, or as nothing when it is blank. */
  lemma SplitCommaListSingle(s: string)
    requires ',' !in s
    ensures SplitCommaList(s) == if AllSpace(s) then [] else [Strip(s)]
  {
    if s != [] {
      assert Split(s, ',') == [s];
      assert StripAndDropEmpty([s]) == KeptPiece(s) + StripAndDropEmpty([]);
    }
  }

  /** Reading `a,b` is reading `a` and then reading `b`. */
  lemma SplitCommaListConcat(a: string, b: string)
    ensures SplitCommaList(a + "," + b) == SplitCommaList(a) + SplitCommaList(b)
  {
    SplitAppend(a, b, ',');
    StripAndDropEmptyAppend(Split(a, ','), Split(b, ','));
    BlankReadsEmpty(a);
    BlankReadsEmpty(b);
  }

  lemma BlankReadsEmpty(s: string)
    ensures StripAndDropEmpty(Split(s, ',')) == SplitCommaList(s)
  {
    if s == [] {
      assert Split(s, ',') == [s];
      assert StripAndDropEmpty([s]) == KeptPiece(s) + StripAndDropEmpty([]);
    }
  }

  function Upper(c: char): char { if 'a' <= c <= 'z' then (c as int - 32) as char else c }
  function Lower(c: char): char { if 'A' <= c <= 'Z' then (c as int + 32) as char else c }

  /** Python's `s.capitalize()`: first character upper case, the rest lower case (ASCII letters). */
  function Capitalize(s: string): (r: string)
    ensures |r| == |s|
    ensures |s| > 0 ==> r[0] == Upper(s[0])
    ensures forall i :: 0 < i < |s| ==> r[i] == Lower(s[i])
  {
    if s == [] then [] else [Upper(s[0])] + seq(|s| - 1, i requires 0 <= i < |s| - 1 => Lower(s[i + 1]))
  }

  lemma CapitalizeIdempotent(s: string)
    ensures Capitalize(Capitalize(s)) == Capitalize(s)
  {
  }

  /** `needle` occurs in `hay` starting at position `i`. */
  predicate OccursAt(hay: string, needle: string, i: int)
  {
    0 <= i <= |hay| - |needle| && hay[i..i + |needle|] == needle
  }

  /** Python's `needle in hay` for two strings: `needle` occurs in `hay` as a contiguous piece. */
  function Contains(hay: string, needle: string): (r: bool)
    ensures r <==> exists i :: OccursAt(hay, needle, i)
    decreases |hay|
  {
    if needle <= hay then
      assert OccursAt(hay, needle, 0);
      true
    else if hay == [] then false
    else
      var r := Contains(hay[1..], needle);
      assert forall i :: OccursAt(hay[1..], needle, i) <==> OccursAt(hay, needle, i + 1) by {
        forall i ensures OccursAt(hay[1..], needle, i) <==> OccursAt(hay, needle, i + 1) {
          if 0 <= i <= |hay| - 1 - |needle| { assert hay[1..][i..i + |needle|] == hay[i + 1..i + 1 + |needle|]; }
        }
      }
      assert !OccursAt(hay, needle, 0);
      assert (exists i :: OccursAt(hay, needle, i)) ==> r by {
        if exists i :: OccursAt(hay, needle, i) {
          var i :| OccursAt(hay, needle, i);
          assert OccursAt(hay[1..], needle, i - 1);
        }
      }
      r
  }
}
