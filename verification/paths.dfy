/** Slash-separated paths as sequences of segments. The empty sequence stands for "." when a
    path is relative and for "/" when it names the root of a filesystem. */
module Paths {
  import opened Text
  import opened Orders

  type Path = seq<string>

  /** A name a directory entry can carry. */
  predicate IsSegment(s: string) {
    s != "" && s != "." && s != ".." && '/' !in s
  }

  /** A path made only of proper names. */
  predicate Segments(p: Path) {
    forall i :: 0 <= i < |p| ==> IsSegment(p[i])
  }

  predicate IsPrefix(p: Path, q: Path) {
    |p| <= |q| && q[..|p|] == p
  }

  /** Go's path.Dir on a relative path: everything before the last segment, "." for none. */
  function DirName(p: Path): Path {
    if |p| == 0 then [] else p[..|p| - 1]
  }

  /** Go's path.Base on an absolute path: the last segment, "/" for the root itself. */
  function BaseName(p: Path): string {
    if |p| == 0 then "/" else p[|p| - 1]
  }

  /** The parts of a split path that name something, without empty and "." parts. */
  function Clean(parts: seq<string>): (p: Path)
    ensures forall i :: 0 <= i < |p| ==> p[i] != "" && p[i] != "." && p[i] in parts
    ensures |p| <= |parts|
  {
    if |parts| == 0 then []
    else if parts[0] == "" || parts[0] == "." then Clean(parts[1..])
    else [parts[0]] + Clean(parts[1..])
  }

  /** Path text to segments. */
  function Parse(s: string): (p: Path)
    ensures forall i :: 0 <= i < |p| ==> p[i] != "" && p[i] != "." && '/' !in p[i]
  {
    var parts := Split(s, '/');
    var p := Clean(parts);
    assert forall i :: 0 <= i < |p| ==> '/' !in p[i] by {
      forall i | 0 <= i < |p| ensures '/' !in p[i] {
        var k :| 0 <= k < |parts| && parts[k] == p[i];
      }
    }
    p
  }

  /** Segments to the cleaned path text Go's path package produces. */
  function Format(p: Path): string {
    if |p| == 0 then "." else JoinWith(p, '/')
  }

  /** Go's path.Join of two path texts, before cleaning. */
  function JoinText(a: string, b: string): string {
    a + "/" + b
  }

  lemma {:induction false} CleanConcat(a: seq<string>, b: seq<string>)
    ensures Clean(a + b) == Clean(a) + Clean(b)
    decreases |a|
  {
    if |a| == 0 {
      assert a + b == b;
    } else {
      assert (a + b)[1..] == a[1..] + b;
      CleanConcat(a[1..], b);
    }
  }

  lemma {:induction false} CleanSegments(p: Path)
    requires Segments(p)
    ensures Clean(p) == p
    decreases |p|
  {
    if |p| > 0 {
      CleanSegments(p[1..]);
      assert p == [p[0]] + p[1..];
    }
  }

  /** A separator splits a string into the parts before it followed by the parts after it. */
  lemma {:induction false} SplitConcat(a: string, b: string)
    ensures Split(a + "/" + b, '/') == Split(a, '/') + Split(b, '/')
    decreases |a|
  {
    if |a| == 0 {
      assert a + "/" + b == "/" + b;
      assert ("/" + b)[1..] == b;
    } else {
      var s := a + "/" + b;
      assert s[0] == a[0];
      assert s[1..] == a[1..] + "/" + b;
      SplitConcat(a[1..], b);
    }
  }

  /** Joining path texts concatenates their segments (path.Join without ".." or a leading "/"). */
  lemma JoinIsConcat(a: string, b: string)
    ensures Parse(JoinText(a, b)) == Parse(a) + Parse(b)
  {
    SplitConcat(a, b);
    CleanConcat(Split(a, '/'), Split(b, '/'));
  }

  /** Formatting a path of segments and parsing the text gives the path back; "." is empty. */
  lemma ParseFormat(p: Path)
    requires Segments(p)
    ensures Parse(Format(p)) == p
  {
    if |p| == 0 {
      SplitWithoutSep(".", '/');
    } else {
      SplitJoin(p, '/');
      CleanSegments(p);
    }
  }

  function CharLess(a: char, b: char): bool { a < b }

  /** Byte-wise string order, as Go's sort.Strings orders directory listings. */
  function NameLess(a: string, b: string): bool { LexLess(a, b, CharLess) }

  /** Segment-wise path order: the order a lexical pre-order walk visits paths in. */
  function PathLess(p: Path, q: Path): bool { LexLess(p, q, NameLess) }

  lemma NameLessIsStrictTotal()
    ensures StrictTotalOrder(NameLess)
  {
    assert StrictTotalOrder(CharLess);
    forall a: string ensures !NameLess(a, a) { LexIrreflexive(a, CharLess); }
    forall a: string, b: string, c: string | NameLess(a, b) && NameLess(b, c)
      ensures NameLess(a, c)
    {
      LexTransitive(a, b, c, CharLess);
    }
    forall a: string, b: string | a != b ensures NameLess(a, b) || NameLess(b, a) {
      LexTotal(a, b, CharLess);
    }
  }

  lemma PathLessIsStrictTotal()
    ensures StrictTotalOrder(PathLess)
  {
    NameLessIsStrictTotal();
    forall p: Path ensures !PathLess(p, p) { LexIrreflexive(p, NameLess); }
    forall p: Path, q: Path, r: Path | PathLess(p, q) && PathLess(q, r)
      ensures PathLess(p, r)
    {
      LexTransitive(p, q, r, NameLess);
    }
    forall p: Path, q: Path | p != q ensures PathLess(p, q) || PathLess(q, p) {
      LexTotal(p, q, NameLess);
    }
  }
}
