/** Python's string primitives as the core uses them: `str.isspace`, `str.split()`,
    `str.split(sep)`, `str.strip()`, `str.strip(chars)`, `str.join` and `str.startswith`. */
module Text {

  /** The characters `str.isspace` (and regular-expression `\s`) accepts. */
  predicate IsSpace(c: char)
  {
    c == ' ' || '\t' <= c <= '\r' || '\U{1c}' <= c <= '\U{1f}' || c == '\U{85}' || c == '\U{a0}' ||
    c == '\U{1680}' || '\U{2000}' <= c <= '\U{200a}' || c == '\U{2028}' || c == '\U{2029}' ||
    c == '\U{202f}' || c == '\U{205f}' || c == '\U{3000}'
  }

  predicate NoSpace(s: string)
  {
    forall i | 0 <= i < |s| :: !IsSpace(s[i])
  }

  predicate StartsWith(s: string, prefix: string)
  {
    |prefix| <= |s| && s[..|prefix|] == prefix
  }

  /** `s` with every whitespace character removed. */
  function RemoveSpace(s: string): (r: string)
    ensures NoSpace(r) && |r| <= |s|
  {
    if s == [] then []
    else if IsSpace(s[0]) then RemoveSpace(s[1..])
    else [s[0]] + RemoveSpace(s[1..])
  }

  /** Concatenation of a sequence of strings. */
  function Concat(ss: seq<string>): string
  {
    if ss == [] then [] else ss[0] + Concat(ss[1..])
  }

  // ---------------------------------------------------------------------------
  // str.split() with no argument: the maximal runs of non-whitespace characters.

  function SplitWhitespace(s: string): (ws: seq<string>)
    ensures forall w <- ws :: w != [] && NoSpace(w)
  {
    SplitWhitespaceFrom(s, [])
  }

  /** Splitting of `s` when the run `cur` has already been read. */
  function SplitWhitespaceFrom(s: string, cur: string): (ws: seq<string>)
    requires NoSpace(cur)
    ensures forall w <- ws :: w != [] && NoSpace(w)
    decreases |s|
  {
    if s == [] then Flush(cur)
    else if IsSpace(s[0]) then Flush(cur) + SplitWhitespaceFrom(s[1..], [])
    else SplitWhitespaceFrom(s[1..], cur + [s[0]])
  }

  /** The pending run as a (possibly empty) list of words. */
  function Flush(cur: string): seq<string>
  {
    if cur == [] then [] else [cur]
  }

  /** The words, joined back together, are the input without its whitespace. */
  lemma {:induction false} SplitWhitespaceFromConcat(s: string, cur: string)
    requires NoSpace(cur)
    ensures Concat(SplitWhitespaceFrom(s, cur)) == cur + RemoveSpace(s)
    decreases |s|
  {
    if s == [] {
      assert Concat(Flush(cur)) == cur by { if cur != [] { assert Concat([cur]) == cur + Concat([]); } }
    } else if IsSpace(s[0]) {
      SplitWhitespaceFromConcat(s[1..], []);
      ConcatAppend(Flush(cur), SplitWhitespaceFrom(s[1..], []));
      assert Concat(Flush(cur)) == cur by { if cur != [] { assert Concat([cur]) == cur + Concat([]); } }
    } else {
      SplitWhitespaceFromConcat(s[1..], cur + [s[0]]);
    }
  }

  lemma SplitWhitespaceConcat(s: string)
    ensures Concat(SplitWhitespace(s)) == RemoveSpace(s)
  {
    SplitWhitespaceFromConcat(s, []);
  }

  lemma {:induction false} ConcatAppend(a: seq<string>, b: seq<string>)
    ensures Concat(a + b) == Concat(a) + Concat(b)
    decreases |a|
  {
    if a == [] {
      assert a + b == b;
    } else {
      assert (a + b)[1..] == a[1..] + b;
      ConcatAppend(a[1..], b);
    }
  }

  /** Reading a run of non-space characters only extends the pending word. */
  lemma {:induction false} SplitWhitespaceFromWord(w: string, rest: string, cur: string)
    requires NoSpace(cur) && NoSpace(w)
    ensures SplitWhitespaceFrom(w + rest, cur) == SplitWhitespaceFrom(rest, cur + w)
    decreases |w|
  {
    if w == [] {
      assert w + rest == rest;
      assert cur + w == cur;
    } else {
      assert (w + rest)[0] == w[0];
      assert (w + rest)[1..] == w[1..] + rest;
      assert cur + [w[0]] + w[1..] == cur + w;
      SplitWhitespaceFromWord(w[1..], rest, cur + [w[0]]);
    }
  }

  /** A whitespace character ends the pending word, and the words on its two sides
      are those of the two sides split separately. */
  lemma {:induction false} SplitWhitespaceFromSpace(x: string, w: char, y: string, cur: string)
    requires NoSpace(cur) && IsSpace(w)
    ensures SplitWhitespaceFrom(x + [w] + y, cur) == SplitWhitespaceFrom(x, cur) + SplitWhitespaceFrom(y, [])
    decreases |x|
  {
    if x == [] {
      assert x + [w] + y == [w] + y;
      assert ([w] + y)[1..] == y;
    } else {
      assert (x + [w] + y)[0] == x[0];
      assert (x + [w] + y)[1..] == x[1..] + [w] + y;
      if IsSpace(x[0]) {
        SplitWhitespaceFromSpace(x[1..], w, y, []);
      } else {
        SplitWhitespaceFromSpace(x[1..], w, y, cur + [x[0]]);
      }
    }
  }

  // ---------------------------------------------------------------------------
  // str.split(sep) for a one-character separator, and str.join.

  /** `s.split(sep)`: the pieces between the occurrences of `sep`, always at least one. */
  function Split(s: string, sep: char): (pieces: seq<string>)
    ensures |pieces| >= 1
    ensures forall p <- pieces :: sep !in p
    decreases |s|
  {
    if s == [] then [[]]
    else
      var rest := Split(s[1..], sep);
      if s[0] == sep then [[]] + rest
      else [[s[0]] + rest[0]] + rest[1..]
  }

  /** `sep.join(pieces)`. */
  function Join(pieces: seq<string>, sep: char): string
  {
    if pieces == [] then []
    else if |pieces| == 1 then pieces[0]
    else pieces[0] + [sep] + Join(pieces[1..], sep)
  }

  /** A character that is neither the separator nor in any piece is not in the join. */
  lemma {:induction false} JoinAvoids(pieces: seq<string>, sep: char, c: char)
    requires c != sep && forall p <- pieces :: c !in p
    ensures c !in Join(pieces, sep)
    decreases |pieces|
  {
    if |pieces| > 1 {
      assert pieces[0] in pieces;
      JoinAvoids(pieces[1..], sep, c);
    } else if |pieces| == 1 {
      assert pieces[0] in pieces;
    }
  }

  /** A join whose first piece is not empty starts with that piece's first character. */
  lemma JoinFirst(pieces: seq<string>, sep: char)
    requires pieces != [] && pieces[0] != []
    ensures Join(pieces, sep) != [] && Join(pieces, sep)[0] == pieces[0][0]
  {
    if |pieces| > 1 {
      assert Join(pieces, sep) == pieces[0] + ([sep] + Join(pieces[1..], sep));
    }
  }

  /** A join whose last piece is not empty ends with that piece's last character. */
  lemma {:induction false} JoinLast(pieces: seq<string>, sep: char)
    requires pieces != [] && pieces[|pieces| - 1] != []
    ensures var j := Join(pieces, sep);
            j != [] && j[|j| - 1] == pieces[|pieces| - 1][|pieces[|pieces| - 1]| - 1]
    decreases |pieces|
  {
    if |pieces| > 1 {
      var rest := pieces[1..];
      JoinLast(rest, sep);
      assert Join(pieces, sep) == (pieces[0] + [sep]) + Join(rest, sep);
    }
  }

  /** Number of occurrences of `c` in `s`. */
  function Count(s: string, c: char): nat
  {
    if s == [] then 0 else (if s[0] == c then 1 else 0) + Count(s[1..], c)
  }

  /** Splitting yields one more piece than there are separators. */
  lemma {:induction false} SplitLength(s: string, sep: char)
    ensures |Split(s, sep)| == Count(s, sep) + 1
    decreases |s|
  {
    if s != [] {
      SplitLength(s[1..], sep);
    }
  }

  /** A separator-free prefix is glued onto the first piece of what follows it. */
  lemma {:induction false} SplitPrefix(a: string, b: string, sep: char)
    requires sep !in a
    ensures Split(a + b, sep) == [a + Split(b, sep)[0]] + Split(b, sep)[1..]
    decreases |a|
  {
    if a == [] {
      assert a + b == b;
      assert a + Split(b, sep)[0] == Split(b, sep)[0];
      assert Split(b, sep) == [Split(b, sep)[0]] + Split(b, sep)[1..];
    } else {
      assert (a + b)[0] == a[0];
      assert (a + b)[1..] == a[1..] + b;
      SplitPrefix(a[1..], b, sep);
      assert [a[0]] + (a[1..] + Split(b, sep)[0]) == a + Split(b, sep)[0];
    }
  }

  /** Round trip: splitting a join gives back the pieces when none holds the separator. */
  lemma {:induction false} SplitJoin(pieces: seq<string>, sep: char)
    requires |pieces| >= 1
    requires forall p <- pieces :: sep !in p
    ensures Split(Join(pieces, sep), sep) == pieces
    decreases |pieces|
  {
    if |pieces| == 1 {
      var p := pieces[0];
      SplitPrefix(p, [], sep);
      assert p + [] == p;
    } else {
      var p := pieces[0];
      var tail := Join(pieces[1..], sep);
      assert Join(pieces, sep) == p + ([sep] + tail);
      SplitJoin(pieces[1..], sep);
      assert Split([sep] + tail, sep) == [[]] + Split(tail, sep) by {
        assert ([sep] + tail)[1..] == tail;
      }
      SplitPrefix(p, [sep] + tail, sep);
      assert p + [] == p;
      assert pieces == [p] + pieces[1..];
    }
  }

  /** Joining the pieces of a split restores the string. */
  lemma {:induction false} JoinSplit(s: string, sep: char)
    ensures Join(Split(s, sep), sep) == s
    decreases |s|
  {
    if s != [] {
      var rest := Split(s[1..], sep);
      JoinSplit(s[1..], sep);
      if s[0] == sep {
        assert Split(s, sep) == [[]] + rest;
        assert ([[]] + rest)[1..] == rest;
        assert s == [sep] + s[1..];
      } else {
        var ps := Split(s, sep);
        assert ps == [[s[0]] + rest[0]] + rest[1..];
        if |rest| == 1 {
          assert Join(rest, sep) == rest[0];
          assert s == [s[0]] + rest[0];
        } else {
          assert Join(rest, sep) == rest[0] + [sep] + Join(rest[1..], sep);
          assert ps[1..] == rest[1..];
          assert s == [s[0]] + rest[0] + [sep] + Join(rest[1..], sep);
        }
      }
    }
  }

  // ---------------------------------------------------------------------------
  // str.strip() and str.strip(chars).

  /** Number of leading characters of `s` satisfying `drop`. */
  function LeadingCount(s: string, drop: char -> bool): (k: nat)
    ensures k <= |s|
    ensures forall i | 0 <= i < k :: drop(s[i])
    ensures k == |s| || !drop(s[k])
    decreases |s|
  {
    if s != [] && drop(s[0]) then 1 + LeadingCount(s[1..], drop) else 0
  }

  /** Number of trailing characters of `s` satisfying `drop`. */
  function TrailingCount(s: string, drop: char -> bool): (k: nat)
    ensures k <= |s|
    ensures forall i | |s| - k <= i < |s| :: drop(s[i])
    ensures k == |s| || !drop(s[|s| - k - 1])
    decreases |s|
  {
    if s != [] && drop(s[|s| - 1]) then 1 + TrailingCount(s[..|s| - 1], drop) else 0
  }

  /** `s` without its leading and trailing characters satisfying `drop`: the middle
      slice `s[StripStart(s, drop)..]` of `s` whose two sides consist of dropped
      characters only, and which itself neither starts nor ends with one. */
  function StripBy(s: string, drop: char -> bool): (r: string)
    ensures StripStart(s, drop) + |r| <= |s|
    ensures r == s[StripStart(s, drop)..StripStart(s, drop) + |r|]
    ensures forall k | 0 <= k < StripStart(s, drop) :: drop(s[k])
    ensures forall k | StripStart(s, drop) + |r| <= k < |s| :: drop(s[k])
    ensures r == [] || (!drop(r[0]) && !drop(r[|r| - 1]))
  {
    var a := StripStart(s, drop);
    var t := s[a..];
    var r := t[..|t| - TrailingCount(t, drop)];
    assert forall k | a + |r| <= k < |s| :: s[k] == t[k - a];
    r
  }

  function StripStart(s: string, drop: char -> bool): nat
  {
    LeadingCount(s, drop)
  }

  /** `s.strip()`. */
  function Strip(s: string): (r: string)
    ensures r == [] || (!IsSpace(r[0]) && !IsSpace(r[|r| - 1]))
  {
    StripBy(s, IsSpace)
  }

  /** `s.strip(chars)`. */
  function StripChars(s: string, chars: set<char>): (r: string)
    ensures r == [] || (r[0] !in chars && r[|r| - 1] !in chars)
  {
    StripBy(s, c => c in chars)
  }

  /** Stripping is idempotent. */
  lemma StripByIdempotent(s: string, drop: char -> bool)
    ensures StripBy(StripBy(s, drop), drop) == StripBy(s, drop)
  {
    var r := StripBy(s, drop);
    StripByFixed(r, drop);
  }

  /** A string that neither starts nor ends with a dropped character is its own strip. */
  lemma StripByFixed(s: string, drop: char -> bool)
    requires s == [] || (!drop(s[0]) && !drop(s[|s| - 1]))
    ensures StripBy(s, drop) == s
  {
    assert LeadingCount(s, drop) == 0;
    assert TrailingCount(s[0..], drop) == 0;
  }
}
