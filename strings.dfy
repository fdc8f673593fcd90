/**
 * The few operations of Python's `str` that the downloader relies on,
 * with Python's semantics: `sep.join`, `s.split(sep)` for a one-character
 * separator, `s.replace(old, new)`, `old in s`, `s.lstrip()`.
 * A Python string is a sequence of code points, i.e. a Dafny `string`.
 */
module Strings {

  /** `s.split(sep)`: the pieces between separators; never empty ("".split(",") == [""]). */
  function Split(s: string, sep: char): (r: seq<string>)
    ensures |r| >= 1
    decreases |s|
  {
    if |s| == 0 then [""]
    else
      var rest := Split(s[1..], sep);
      if s[0] == sep then [""] + rest
      else [[s[0]] + rest[0]] + rest[1..]
  }

  /** `sep.join(ws)` for a one-character separator. */
  function Join(ws: seq<string>, sep: char): string
  {
    if |ws| == 0 then ""
    else if |ws| == 1 then ws[0]
    else ws[0] + [sep] + Join(ws[1..], sep)
  }

  /** `[w for w in ws if w != '']`, order kept. */
  function DropEmpty(ws: seq<string>): (r: seq<string>)
    ensures |r| <= |ws|
    ensures forall i :: 0 <= i < |r| ==> r[i] != "" && r[i] in ws
  {
    if |ws| == 0 then []
    else if ws[0] == "" then DropEmpty(ws[1..])
    else [ws[0]] + DropEmpty(ws[1..])
  }

  /** `s.replace(pat, repl)`: every non-overlapping occurrence, scanning left to right. */
  function Replace(s: string, pat: string, repl: string): string
    requires |pat| > 0
    decreases |s|
  {
    if |s| == 0 then ""
    else if pat <= s then repl + Replace(s[|pat|..], pat, repl)
    else [s[0]] + Replace(s[1..], pat, repl)
  }

  /** `pat in s` for a substring `pat`. */
  predicate Contains(s: string, pat: string)
    decreases |s|
  {
    pat <= s || (|s| > 0 && Contains(s[1..], pat))
  }

  /** `s` with every occurrence of `c` deleted. */
  function RemoveAll(s: string, c: char): string
  {
    if |s| == 0 then ""
    else if s[0] == c then RemoveAll(s[1..], c)
    else [s[0]] + RemoveAll(s[1..], c)
  }

  /** The concatenation of a sequence of sequences, e.g. of the chunks written to a file. */
  function Flatten<T>(ss: seq<seq<T>>): seq<T>
  {
    if |ss| == 0 then [] else Flatten(ss[..|ss| - 1]) + ss[|ss| - 1]
  }

  /** Each line followed by `sep`: the text of a file written one terminated line at a time. */
  function Terminated(ls: seq<string>, sep: char): string
  {
    Flatten(seq(|ls|, i requires 0 <= i < |ls| => ls[i] + [sep]))
  }

  /** The characters for which Python's `str.isspace()` holds; `lstrip()` with no argument removes these. */
  predicate IsWhitespace(c: char)
  {
    c == ' ' || c == '\t' || c == '\n' || c == '\r' || c == '\U{0B}' || c == '\U{0C}'
    || ('\U{1C}' <= c <= '\U{1F}') || c == '\U{85}' || c == '\U{A0}' || c == '\U{1680}'
    || ('\U{2000}' <= c <= '\U{200A}') || c == '\U{2028}' || c == '\U{2029}'
    || c == '\U{202F}' || c == '\U{205F}' || c == '\U{3000}'
  }

  /** `s.lstrip()`: drops the longest whitespace prefix, and only that. */
  function LStrip(s: string): (r: string)
    ensures |r| <= |s| && r == s[|s| - |r|..]
    ensures r == "" || !IsWhitespace(r[0])
    ensures forall i :: 0 <= i < |s| - |r| ==> IsWhitespace(s[i])
  {
    if |s| > 0 && IsWhitespace(s[0]) then LStrip(s[1..]) else s
  }

  /** No separator at either end and never two in a row. */
  predicate Collapsed(s: string, sep: char)
  {
    && (|s| > 0 ==> s[0] != sep && s[|s| - 1] != sep)
    && forall i :: 0 < i < |s| && s[i] == sep ==> s[i - 1] != sep
  }

  // ---------------------------------------------------------------------
  // split / join

  /** Every piece of a split is free of the separator. */
  lemma {:induction false} SplitPiecesNoSep(s: string, sep: char)
    ensures forall i :: 0 <= i < |Split(s, sep)| ==> sep !in Split(s, sep)[i]
    decreases |s|
  {
    if |s| > 0 {
      SplitPiecesNoSep(s[1..], sep);
    }
  }

  /** `sep.join(s.split(sep)) == s`. */
  lemma {:induction false} JoinSplit(s: string, sep: char)
    ensures Join(Split(s, sep), sep) == s
    decreases |s|
  {
    if |s| > 0 {
      JoinSplit(s[1..], sep);
      var rest := Split(s[1..], sep);
      if s[0] != sep && |rest| > 1 {
        assert Join(rest, sep) == rest[0] + [sep] + Join(rest[1..], sep);
      }
    }
  }

  lemma {:induction false} SplitNoSep(s: string, sep: char)
    requires sep !in s
    ensures Split(s, sep) == [s]
    decreases |s|
  {
    if |s| > 0 {
      SplitNoSep(s[1..], sep);
      assert s[0] != sep;
      assert [s[0]] + s[1..] == s;
    }
  }

  /** Splitting `a + sep + b` with `a` separator-free peels off `a`. */
  lemma {:induction false} SplitAt(a: string, sep: char, b: string)
    requires sep !in a
    ensures Split(a + [sep] + b, sep) == [a] + Split(b, sep)
    decreases |a|
  {
    if |a| == 0 {
      assert a + [sep] + b == [sep] + b;
      assert ([sep] + b)[1..] == b;
    } else {
      SplitAt(a[1..], sep, b);
      assert (a + [sep] + b)[1..] == a[1..] + [sep] + b;
      assert [a[0]] + a[1..] == a;
    }
  }

  /** `sep.join(ws).split(sep) == ws` when no word holds the separator. */
  lemma {:induction false} SplitJoin(ws: seq<string>, sep: char)
    requires |ws| >= 1
    requires forall i :: 0 <= i < |ws| ==> sep !in ws[i]
    ensures Split(Join(ws, sep), sep) == ws
    decreases |ws|
  {
    if |ws| == 1 {
      SplitNoSep(ws[0], sep);
    } else {
      SplitJoin(ws[1..], sep);
      SplitAt(ws[0], sep, Join(ws[1..], sep));
    }
  }

  /** The first word of a join begins the joined string. */
  lemma {:induction false} JoinStartsWith(ws: seq<string>, sep: char)
    requires |ws| >= 1
    ensures ws[0] <= Join(ws, sep)
    ensures |ws| > 1 ==> ws[0] + [sep] <= Join(ws, sep)
  {
    if |ws| > 1 {
      assert Join(ws, sep) == ws[0] + [sep] + Join(ws[1..], sep);
    }
  }

  /** Joining non-empty, separator-free words gives a collapsed string. */
  lemma {:induction false} JoinCollapsed(ws: seq<string>, sep: char)
    requires forall i :: 0 <= i < |ws| ==> ws[i] != "" && sep !in ws[i]
    ensures Collapsed(Join(ws, sep), sep)
    decreases |ws|
  {
    if |ws| > 1 {
      var w, rest := ws[0], Join(ws[1..], sep);
      JoinCollapsed(ws[1..], sep);
      JoinStartsWith(ws[1..], sep);
      var s := w + [sep] + rest;
      assert Join(ws, sep) == s;
      assert |rest| > 0 && rest[0] == ws[1][0];
      forall i | 0 < i < |s|
        ensures s[i] == sep ==> s[i - 1] != sep
      {
        if i <= |w| {
          assert s[i - 1] == w[i - 1];
        } else if i == |w| + 1 {
          assert s[i] == rest[0];
        } else {
          assert s[i] == rest[i - |w| - 1] && s[i - 1] == rest[i - |w| - 2];
        }
      }
      assert s[0] == w[0];
      assert s[|s| - 1] == rest[|rest| - 1];
    }
  }

  // ---------------------------------------------------------------------
  // RemoveAll

  lemma {:induction false} RemoveAllAppend(a: string, b: string, c: char)
    ensures RemoveAll(a + b, c) == RemoveAll(a, c) + RemoveAll(b, c)
    decreases |a|
  {
    if |a| == 0 {
      assert a + b == b;
    } else {
      RemoveAllAppend(a[1..], b, c);
      assert (a + b)[1..] == a[1..] + b;
    }
  }

  /** Deleting `c` keeps every other character: `x` occurs before iff it occurs after. */
  lemma {:induction false} RemoveAllKeeps(s: string, c: char, x: char)
    requires x != c
    ensures x in s <==> x in RemoveAll(s, c)
    decreases |s|
  {
    if |s| > 0 {
      RemoveAllKeeps(s[1..], c, x);
      assert s == [s[0]] + s[1..];
    }
  }

  lemma {:induction false} RemoveAllJoinCons(w: string, ws: seq<string>, sep: char)
    ensures RemoveAll(Join([w] + ws, sep), sep) == RemoveAll(w, sep) + RemoveAll(Join(ws, sep), sep)
  {
    if |ws| > 0 {
      assert ([w] + ws)[1..] == ws;
      RemoveAllAppend(w + [sep], Join(ws, sep), sep);
      RemoveAllAppend(w, [sep], sep);
    } else {
      assert [w] + ws == [w];
    }
  }

  /** Dropping empty words changes the joined text only in its separators. */
  lemma {:induction false} RemoveAllJoinDropEmpty(ws: seq<string>, sep: char)
    ensures RemoveAll(Join(DropEmpty(ws), sep), sep) == RemoveAll(Join(ws, sep), sep)
    decreases |ws|
  {
    if |ws| > 0 {
      RemoveAllJoinDropEmpty(ws[1..], sep);
      assert ws == [ws[0]] + ws[1..];
      RemoveAllJoinCons(ws[0], ws[1..], sep);
      if ws[0] != "" {
        RemoveAllJoinCons(ws[0], DropEmpty(ws[1..]), sep);
      }
    }
  }

  // ---------------------------------------------------------------------
  // replace

  /** After replacing every `c` by a text without `c`, no `c` is left. */
  lemma {:induction false} ReplaceRemovesChar(s: string, c: char, repl: string)
    requires c !in repl
    ensures c !in Replace(s, [c], repl)
    decreases |s|
  {
    if |s| > 0 {
      ReplaceRemovesChar(s[1..], c, repl);
      if [c] <= s {
        assert s[|[c]|..] == s[1..];
      } else {
        assert s[0] != c;
      }
    }
  }

  /** Replacing `c` by `d` and then deleting `d` deletes both. */
  lemma {:induction false} ReplaceThenRemove(s: string, c: char, d: char)
    ensures RemoveAll(Replace(s, [c], [d]), d) == RemoveAll(RemoveAll(s, c), d)
    decreases |s|
  {
    if |s| > 0 {
      ReplaceThenRemove(s[1..], c, d);
      if [c] <= s {
        assert s[|[c]|..] == s[1..];
        RemoveAllAppend([d], Replace(s[1..], [c], [d]), d);
      } else {
        RemoveAllAppend([s[0]], Replace(s[1..], [c], [d]), d);
        RemoveAllAppend([s[0]], RemoveAll(s[1..], c), d);
      }
    }
  }

  /** A text without the first character of the pattern is left untouched. */
  lemma {:induction false} ReplaceAbsentHead(s: string, pat: string, repl: string)
    requires |pat| > 0 && pat[0] !in s
    ensures Replace(s, pat, repl) == s
    decreases |s|
  {
    if |s| > 0 {
      ReplaceAbsentHead(s[1..], pat, repl);
      assert s[0] != pat[0];
      assert [s[0]] + s[1..] == s;
    }
  }

  // ---------------------------------------------------------------------
  // Flatten

  lemma {:induction false} FlattenAppend<T>(a: seq<seq<T>>, b: seq<seq<T>>)
    ensures Flatten(a + b) == Flatten(a) + Flatten(b)
    decreases |b|
  {
    if |b| == 0 {
      assert a + b == a;
    } else {
      FlattenAppend(a, b[..|b| - 1]);
      assert (a + b)[..|a + b| - 1] == a + b[..|b| - 1];
    }
  }

  /** The multiset of a flattening depends only on the multiset of the parts: order does not matter. */
  lemma {:induction false} FlattenPermutation<T>(a: seq<seq<T>>, b: seq<seq<T>>)
    requires multiset(a) == multiset(b)
    ensures multiset(Flatten(a)) == multiset(Flatten(b))
    decreases |a|
  {
    if |a| > 0 {
      var last := a[|a| - 1];
      assert last in multiset(b);
      var k :| 0 <= k < |b| && b[k] == last;
      var b' := b[..k] + b[k + 1..];
      assert b == b[..k] + [last] + b[k + 1..];
      assert a == a[..|a| - 1] + [last];
      assert multiset(b) == multiset(b[..k]) + multiset([last]) + multiset(b[k + 1..]);
      assert multiset(b') == multiset(b[..k]) + multiset(b[k + 1..]);
      assert multiset(a) == multiset(a[..|a| - 1]) + multiset([last]);
      assert multiset(a[..|a| - 1]) == multiset(a) - multiset{last};
      assert multiset(b') == multiset(b) - multiset{last};
      FlattenPermutation(a[..|a| - 1], b');
      FlattenAppend(b[..k] + [last], b[k + 1..]);
      FlattenAppend(b[..k], [last]);
      FlattenAppend(b[..k], b[k + 1..]);
      assert Flatten([last]) == last;
    }
  }

  lemma TerminatedSnoc(ls: seq<string>, l: string, sep: char)
    ensures Terminated(ls + [l], sep) == Terminated(ls, sep) + l + [sep]
  {
    var chunks := seq(|ls + [l]|, i requires 0 <= i < |ls + [l]| => (ls + [l])[i] + [sep]);
    assert chunks[..|chunks| - 1] == seq(|ls|, i requires 0 <= i < |ls| => ls[i] + [sep]);
  }

  /** Splitting a file of terminated lines on the terminator gives back the lines, then "". */
  lemma {:induction false} SplitTerminated(ls: seq<string>, sep: char)
    requires forall i :: 0 <= i < |ls| ==> sep !in ls[i]
    ensures Split(Terminated(ls, sep), sep) == ls + [""]
    decreases |ls|
  {
    if |ls| > 0 {
      var chunks := seq(|ls|, i requires 0 <= i < |ls| => ls[i] + [sep]);
      assert chunks == [chunks[0]] + chunks[1..];
      assert chunks[1..] == seq(|ls[1..]|, i requires 0 <= i < |ls[1..]| => ls[1..][i] + [sep]);
      FlattenAppend([chunks[0]], chunks[1..]);
      assert Flatten([chunks[0]]) == chunks[0] by {
        assert [chunks[0]][..0] == [];
      }
      assert Terminated(ls, sep) == ls[0] + [sep] + Terminated(ls[1..], sep);
      SplitAt(ls[0], sep, Terminated(ls[1..], sep));
      SplitTerminated(ls[1..], sep);
      assert ls == [ls[0]] + ls[1..];
    }
  }

  /** `[f(x) for x in xs]`. */
  function MapSeq<A, B>(xs: seq<A>, f: A -> B): (r: seq<B>)
    ensures |r| == |xs|
  {
    seq(|xs|, i requires 0 <= i < |xs| => f(xs[i]))
  }

  lemma MapSeqSnoc<A, B>(xs: seq<A>, x: A, f: A -> B)
    ensures MapSeq(xs + [x], f) == MapSeq(xs, f) + [f(x)]
  {
  }

  lemma MapSeqAppend<A, B>(xs: seq<A>, ys: seq<A>, f: A -> B)
    ensures MapSeq(xs + ys, f) == MapSeq(xs, f) + MapSeq(ys, f)
  {
  }

  /** Mapping a permutation gives a permutation. */
  lemma {:induction false} MapSeqPermutation<A, B>(xs: seq<A>, ys: seq<A>, f: A -> B)
    requires multiset(xs) == multiset(ys)
    ensures multiset(MapSeq(xs, f)) == multiset(MapSeq(ys, f))
    decreases |xs|
  {
    if |xs| > 0 {
      var x := xs[0];
      assert x in multiset(ys);
      var k :| 0 <= k < |ys| && ys[k] == x;
      var ys' := ys[..k] + ys[k + 1..];
      assert ys == ys[..k] + [x] + ys[k + 1..];
      assert xs == [x] + xs[1..];
      assert multiset(xs[1..]) == multiset(xs) - multiset{x};
      assert multiset(ys') == multiset(ys) - multiset{x};
      MapSeqPermutation(xs[1..], ys', f);
      MapSeqAppend([x], xs[1..], f);
      MapSeqAppend(ys[..k] + [x], ys[k + 1..], f);
      MapSeqAppend(ys[..k], [x], f);
      MapSeqAppend(ys[..k], ys[k + 1..], f);
    }
  }

  /** An element of one part is an element of the flattening. */
  lemma {:induction false} FlattenHolds<T>(ss: seq<seq<T>>, k: nat, x: T)
    requires k < |ss| && x in ss[k]
    ensures x in Flatten(ss)
    decreases |ss|
  {
    if k < |ss| - 1 {
      FlattenHolds(ss[..|ss| - 1], k, x);
    }
  }
}
