/**
 * Path segmentation as the handler computes it: `url.split('/').filter(Boolean)`.
 * `Split` is JavaScript's `String.prototype.split` with the one-character separator '/',
 * `NonEmpty` is `filter(Boolean)` on strings (the empty string is the only falsy one).
 */
module Paths {

  const Slash: char := '/'

  /** `s.split('/')`: the pieces between separators, so k slashes give k + 1 pieces. */
  function Split(s: string): (r: seq<string>)
    ensures |r| >= 1
  {
    if s == [] then [[]]
    else
      var rest := Split(s[1..]);
      if s[0] == Slash then [[]] + rest
      else [[s[0]] + rest[0]] + rest[1..]
  }

  /** No piece of a split contains the separator. */
  lemma {:induction false} SplitPieces(s: string)
    ensures forall i :: 0 <= i < |Split(s)| ==> Slash !in Split(s)[i]
  {
    if s != [] {
      SplitPieces(s[1..]);
      var rest := Split(s[1..]);
      if s[0] != Slash {
        assert Slash !in [s[0]] + rest[0];
      }
    }
  }

  /** `parts.join('/')`, the inverse of `Split`. */
  function Join(parts: seq<string>): string
    requires |parts| >= 1
  {
    if |parts| == 1 then parts[0] else parts[0] + [Slash] + Join(parts[1..])
  }

  /** `filter(Boolean)` on a sequence of strings: drops the empty ones, keeps the order. */
  function NonEmpty(parts: seq<string>): (r: seq<string>)
    ensures |r| <= |parts|
    ensures forall i :: 0 <= i < |r| ==> r[i] != [] && r[i] in parts
  {
    if parts == [] then []
    else if parts[0] == [] then NonEmpty(parts[1..])
    else [parts[0]] + NonEmpty(parts[1..])
  }

  /** `filter(Boolean)` keeps every non-empty string of its input; with `NonEmptyAppend` this
      fixes the result, in order. */
  lemma {:induction false} NonEmptyKeeps(parts: seq<string>)
    ensures forall x :: x in parts && x != [] ==> x in NonEmpty(parts)
  {
    if parts != [] {
      NonEmptyKeeps(parts[1..]);
      forall x | x in parts && x != [] ensures x in NonEmpty(parts) {
        var i :| 0 <= i < |parts| && parts[i] == x;
        if i > 0 {
          assert parts[1..][i - 1] == x;
        }
      }
    }
  }

  /** `url.split('/').filter(Boolean)`. */
  function Segments(url: string): (r: seq<string>)
    ensures forall i :: 0 <= i < |r| ==> r[i] != [] && Slash !in r[i]
  {
    SplitPieces(url);
    NonEmpty(Split(url))
  }

  /** Splitting loses nothing: joining the pieces back gives the input. */
  lemma {:induction false} JoinSplit(s: string)
    ensures Join(Split(s)) == s
  {
    if s != [] {
      var rest := Split(s[1..]);
      JoinSplit(s[1..]);
      if s[0] == Slash {
        assert Split(s) == [[]] + rest;
        assert Split(s)[1..] == rest;
      } else if |rest| == 1 {
        assert Split(s) == [[s[0]] + rest[0]];
        assert s == [s[0]] + s[1..];
      } else {
        var r := Split(s);
        assert r == [[s[0]] + rest[0]] + rest[1..];
        assert r[1..] == rest[1..];
        assert Join(rest) == rest[0] + [Slash] + Join(rest[1..]);
        assert s == [s[0]] + s[1..];
      }
    }
  }

  /** A leading slash closes an empty first piece. */
  lemma SplitSlash(x: string)
    ensures Split([Slash] + x) == [[]] + Split(x)
  {
    assert ([Slash] + x)[1..] == x;
  }

  /** Any other leading character joins the first piece. */
  lemma SplitChar(c: char, x: string)
    requires c != Slash
    ensures Split([c] + x) == [[c] + Split(x)[0]] + Split(x)[1..]
  {
    assert ([c] + x)[1..] == x;
  }

  /** Prepending an element to a concatenation prepends it to its first part. */
  lemma ConsAppend<T>(h: T, r1: seq<T>, r2: seq<T>)
    ensures [h] + (r1 + r2) == ([h] + r1) + r2
  {
  }

  /** Replacing the head of a concatenation replaces the head of its first part. */
  lemma ReplaceHead<T>(h: T, r1: seq<T>, r2: seq<T>)
    requires |r1| >= 1
    ensures [h] + (r1 + r2)[1..] == ([h] + r1[1..]) + r2
  {
    assert (r1 + r2)[1..] == r1[1..] + r2;
  }

  /** A slash splits the text around it independently: the pieces of `a + "/" + b` are
      the pieces of `a` followed by those of `b`. */
  lemma {:induction false} SplitAtSlash(a: string, b: string)
    ensures Split(a + [Slash] + b) == Split(a) + Split(b)
  {
    if a == [] {
      assert a + [Slash] + b == [Slash] + b;
      SplitSlash(b);
    } else {
      var c, x := a[0], a[1..];
      assert a == [c] + x;
      assert a + [Slash] + b == [c] + (x + [Slash] + b);
      SplitAtSlash(x, b);
      if c == Slash {
        SplitAtSlashAfterSlash(x, b);
      } else {
        SplitAtSlashAfterChar(c, x, b);
      }
    }
  }

  /** The inductive step of `SplitAtSlash` for a leading slash. */
  lemma SplitAtSlashAfterSlash(x: string, b: string)
    requires Split(x + [Slash] + b) == Split(x) + Split(b)
    ensures Split([Slash] + (x + [Slash] + b)) == Split([Slash] + x) + Split(b)
  {
    SplitSlash(x);
    SplitSlash(x + [Slash] + b);
    ConsAppend([], Split(x), Split(b));
  }

  /** The inductive step of `SplitAtSlash` for any other leading character. */
  lemma SplitAtSlashAfterChar(c: char, x: string, b: string)
    requires c != Slash
    requires Split(x + [Slash] + b) == Split(x) + Split(b)
    ensures Split([c] + (x + [Slash] + b)) == Split([c] + x) + Split(b)
  {
    var y := x + [Slash] + b;
    var rx, rb := Split(x), Split(b);
    SplitChar(c, x);
    SplitChar(c, y);
    assert Split(y)[0] == rx[0];
    ReplaceHead([c] + rx[0], rx, rb);
  }

  /** A word without slashes is a single piece. */
  lemma {:induction false} SplitWord(w: string)
    requires Slash !in w
    ensures Split(w) == [w]
  {
    if w != [] {
      SplitWord(w[1..]);
      assert w == [w[0]] + w[1..];
    }
  }

  /** `filter` distributes over concatenation. */
  lemma {:induction false} NonEmptyAppend(a: seq<string>, b: seq<string>)
    ensures NonEmpty(a + b) == NonEmpty(a) + NonEmpty(b)
  {
    if a == [] {
      assert a + b == b;
    } else {
      assert (a + b)[0] == a[0];
      assert (a + b)[1..] == a[1..] + b;
      NonEmptyAppend(a[1..], b);
    }
  }

  /** Segments of `a + "/" + b` are those of `a` followed by those of `b`: a slash, or a run
      of slashes, only separates. */
  lemma SegmentsAtSlash(a: string, b: string)
    ensures Segments(a + [Slash] + b) == Segments(a) + Segments(b)
  {
    SplitAtSlash(a, b);
    NonEmptyAppend(Split(a), Split(b));
  }

  /** A non-empty word without slashes is one segment. */
  lemma SegmentsOfWord(w: string)
    requires w != [] && Slash !in w
    ensures Segments(w) == [w]
  {
    SplitWord(w);
  }

  /** The path the client builds from segments: each one preceded by a slash. */
  function PathOf(segs: seq<string>): string
  {
    if segs == [] then [] else [Slash] + segs[0] + PathOf(segs[1..])
  }

  /** A leading slash adds no segment. */
  lemma LeadingSlash(x: string)
    ensures Segments([Slash] + x) == Segments(x)
  {
    SegmentsAtSlash([], x);
    assert [] + [Slash] + x == [Slash] + x;
    assert Split([]) == [[]];
    assert NonEmpty([[]]) == [];
  }

  /** The `PathOf` a sequence of non-empty, slash-free segments parses back to the same
      segments. */
  lemma {:induction false} SegmentsOfPath(segs: seq<string>)
    requires forall i :: 0 <= i < |segs| ==> segs[i] != [] && Slash !in segs[i]
    ensures Segments(PathOf(segs)) == segs
  {
    if segs != [] {
      var w, rest := segs[0], PathOf(segs[1..]);
      assert PathOf(segs) == [Slash] + (w + rest);
      LeadingSlash(w + rest);
      SegmentsOfWord(w);
      if rest == [] {
        assert w + rest == w;
        assert segs == [w];
      } else {
        SegmentsOfPath(segs[1..]);
        var tail := rest[1..];
        assert rest == [Slash] + tail;
        assert w + rest == w + [Slash] + tail;
        SegmentsAtSlash(w, tail);
        LeadingSlash(tail);
        assert segs == [w] + segs[1..];
      }
    }
  }

  /** The list path itself. */
  lemma ExampleListPath()
    ensures Segments("/api/tasks") == ["api", "tasks"]
  {
    SegmentsOfPath(["api", "tasks"]);
    assert PathOf(["api", "tasks"]) == "/api/tasks";
  }

  /** A trailing slash adds no segment. */
  lemma ExampleTrailingSlash()
    ensures Segments("/api/tasks/") == ["api", "tasks"]
  {
    ExampleListPath();
    SegmentsAtSlash("/api/tasks", "");
    assert "/api/tasks/" == "/api/tasks" + [Slash] + "";
    assert NonEmpty(Split("")) == [];
  }

  /** Doubled slashes add no segment. */
  lemma ExampleDoubledSlashes()
    ensures Segments("//api//tasks") == ["api", "tasks"]
  {
    var api, tasks := "api", "tasks";
    var inner := api + [Slash] + ([Slash] + tasks);
    assert "//api//tasks" == [Slash] + ([Slash] + inner);
    calc {
      Segments([Slash] + ([Slash] + inner));
      { LeadingSlash([Slash] + inner); }
      Segments([Slash] + inner);
      { LeadingSlash(inner); }
      Segments(inner);
      { SegmentsAtSlash(api, [Slash] + tasks); }
      Segments(api) + Segments([Slash] + tasks);
      { LeadingSlash(tasks); }
      Segments(api) + Segments(tasks);
      { SegmentsOfWord(api); SegmentsOfWord(tasks); }
      [api, tasks];
    }
  }

  /** A query string stays glued to the last segment. */
  lemma ExampleQueryString()
    ensures Segments("/api/tasks?x=1") == ["api", "tasks?x=1"]
  {
    SegmentsOfPath(["api", "tasks?x=1"]);
    assert PathOf(["api", "tasks?x=1"]) == "/api/tasks?x=1";
  }
}
