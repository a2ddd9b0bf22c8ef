/** Relative paths as sequences of name elements, the string forms `java.nio.file.Path` gives
    them on a '/'-separated file system, and the class-file names the packager derives from a
    binary class name. */
module Paths {

  /** A relative path as the sequence of its name elements: "target/uber" is ["target", "uber"]. */
  type Path = seq<string>

  /** A name element: not empty and free of the separator. */
  predicate ValidName(n: string) {
    n != "" && '/' !in n
  }

  predicate ValidPath(p: Path) {
    forall i :: 0 <= i < |p| ==> ValidName(p[i])
  }

  /** The pieces of `s` between occurrences of `sep`, empty pieces included. */
  function Split(s: string, sep: char): (r: seq<string>)
    ensures |r| >= 1
    decreases |s|
  {
    if s == [] then [""]
    else
      var rest := Split(s[1..], sep);
      if s[0] == sep then [""] + rest
      else [[s[0]] + rest[0]] + rest[1..]
  }

  /** No piece of a split holds the separator, and a string without it is one piece. */
  lemma {:induction false} SplitPieces(s: string, sep: char)
    ensures forall i :: 0 <= i < |Split(s, sep)| ==> sep !in Split(s, sep)[i]
    ensures sep !in s ==> Split(s, sep) == [s]
    decreases |s|
  {
    if s != [] {
      SplitPieces(s[1..], sep);
      var rest := Split(s[1..], sep);
      var r := Split(s, sep);
      if s[0] == sep {
        assert forall i :: 1 <= i < |r| ==> r[i] == rest[i - 1];
      } else {
        assert r[0] == [s[0]] + rest[0];
        assert forall i :: 1 <= i < |r| ==> r[i] == rest[i];
        if sep !in s {
          assert sep !in s[1..];
          assert rest == [s[1..]];
          assert s == [s[0]] + s[1..];
        }
      }
    }
  }

  /** The pieces joined with `sep` between consecutive ones. */
  function Join(pieces: seq<string>, sep: char): string
    decreases |pieces|
  {
    if pieces == [] then ""
    else if |pieces| == 1 then pieces[0]
    else pieces[0] + [sep] + Join(pieces[1..], sep)
  }

  /** Path.toString(). */
  function PathString(p: Path): string {
    Join(p, '/')
  }

  /** The pieces that are not empty, in order. */
  function NonEmpty(pieces: seq<string>): seq<string>
    decreases |pieces|
  {
    if pieces == [] then []
    else (if pieces[0] == "" then [] else [pieces[0]]) + NonEmpty(pieces[1..])
  }

  /** Parsing a path string: split at '/', redundant separators dropped. */
  function SplitPath(s: string): Path {
    NonEmpty(Split(s, '/'))
  }

  /** Parsing a string gives name elements only: none is empty or holds the separator. */
  lemma SplitPathValid(s: string)
    ensures ValidPath(SplitPath(s))
  {
    var pieces := Split(s, '/');
    SplitPieces(s, '/');
    assert forall i :: 0 <= i < |pieces| ==> '/' !in pieces[i];
    NonEmptyOfSeparatorFree(pieces, '/');
  }

  /** Path.resolve(String). */
  function Resolve(p: Path, other: string): Path {
    p + SplitPath(other)
  }

  /** String.replace(char, char). */
  function Replace(s: string, from: char, to: char): (r: string)
    ensures |r| == |s|
    decreases |s|
  {
    if s == [] then []
    else [if s[0] == from then to else s[0]] + Replace(s[1..], from, to)
  }

  /** Each character equal to `from` becomes `to`; the others stay. */
  lemma {:induction false} ReplaceAt(s: string, from: char, to: char)
    ensures forall i :: 0 <= i < |s| ==> Replace(s, from, to)[i] == if s[i] == from then to else s[i]
    decreases |s|
  {
    if s != [] {
      ReplaceAt(s[1..], from, to);
      var r := Replace(s, from, to);
      assert forall i :: 1 <= i < |s| ==> r[i] == Replace(s[1..], from, to)[i - 1] && s[i] == s[1..][i - 1];
    }
  }

  /** A binary class name as Class.getName returns it for a top-level class:
      non-empty identifiers separated by '.', and no '/'. */
  predicate ValidBinaryName(n: string) {
    '/' !in n && forall i :: 0 <= i < |Split(n, '.')| ==> Split(n, '.')[i] != ""
  }

  /** The package of a binary class name as name elements ("a.b.C" gives ["a", "b"]). */
  function PackageNames(n: string): Path {
    var pieces := Split(n, '.');
    pieces[..|pieces| - 1]
  }

  /** The simple name of a binary class name ("a.b.C" gives "C"). */
  function SimpleName(n: string): string {
    var pieces := Split(n, '.');
    pieces[|pieces| - 1]
  }

  /** The resource name of a class file: the binary name with '.' replaced by '/', then `suffix`. */
  function ClassFileName(className: string, suffix: string): string {
    Replace(className, '.', '/') + suffix
  }

  // ---------------------------------------------------------------------------------------
  // Splitting and joining

  lemma {:induction false} SplitAfter(a: string, b: string, sep: char)
    requires sep !in a
    ensures Split(a + [sep] + b, sep) == [a] + Split(b, sep)
    decreases |a|
  {
    var s := a + [sep] + b;
    if a == [] {
      assert s[1..] == b;
    } else {
      assert s[0] == a[0];
      assert s[1..] == a[1..] + [sep] + b;
      SplitAfter(a[1..], b, sep);
      assert [a[0]] + a[1..] == a;
    }
  }

  /** Joining the pieces of a split gives the string back. */
  lemma {:induction false} JoinSplit(s: string, sep: char)
    ensures Join(Split(s, sep), sep) == s
    decreases |s|
  {
    if s != [] {
      var rest := Split(s[1..], sep);
      JoinSplit(s[1..], sep);
      if s[0] == sep {
        assert Split(s, sep) == [""] + rest;
        assert ([""] + rest)[1..] == rest;
        assert [sep] + s[1..] == s;
      } else {
        var r := Split(s, sep);
        assert r == [[s[0]] + rest[0]] + rest[1..];
        if |rest| == 1 {
          assert rest == [rest[0]];
          assert [s[0]] + s[1..] == s;
        } else {
          assert r[1..] == rest[1..];
          assert Join(rest, sep) == rest[0] + [sep] + Join(rest[1..], sep);
          assert [s[0]] + rest[0] + [sep] + Join(rest[1..], sep) == [s[0]] + Join(rest, sep);
          assert [s[0]] + s[1..] == s;
        }
      }
    }
  }

  /** Splitting a join of separator-free pieces gives the pieces back. */
  lemma {:induction false} SplitJoin(pieces: seq<string>, sep: char)
    requires |pieces| >= 1
    requires forall i :: 0 <= i < |pieces| ==> sep !in pieces[i]
    ensures Split(Join(pieces, sep), sep) == pieces
    decreases |pieces|
  {
    if |pieces| == 1 {
      SplitPieces(pieces[0], sep);
    } else {
      SplitJoin(pieces[1..], sep);
      SplitAfter(pieces[0], Join(pieces[1..], sep), sep);
      assert [pieces[0]] + pieces[1..] == pieces;
    }
  }

  lemma {:induction false} NonEmptyAppend(a: seq<string>, b: seq<string>)
    ensures NonEmpty(a + b) == NonEmpty(a) + NonEmpty(b)
    decreases |a|
  {
    if a != [] {
      assert (a + b)[0] == a[0];
      assert (a + b)[1..] == a[1..] + b;
      NonEmptyAppend(a[1..], b);
      var head := if a[0] == "" then [] else [a[0]];
      assert NonEmpty(a + b) == head + (NonEmpty(a[1..]) + NonEmpty(b));
      assert head + (NonEmpty(a[1..]) + NonEmpty(b)) == (head + NonEmpty(a[1..])) + NonEmpty(b);
    } else {
      assert a + b == b;
    }
  }

  /** The kept pieces are non-empty, and separator-free when all pieces are. */
  lemma {:induction false} NonEmptyOfSeparatorFree(pieces: seq<string>, sep: char)
    requires forall i :: 0 <= i < |pieces| ==> sep !in pieces[i]
    ensures forall i :: 0 <= i < |NonEmpty(pieces)| ==> NonEmpty(pieces)[i] != "" && sep !in NonEmpty(pieces)[i]
    decreases |pieces|
  {
    if pieces != [] {
      NonEmptyOfSeparatorFree(pieces[1..], sep);
      var head := if pieces[0] == "" then [] else [pieces[0]];
      var r := NonEmpty(pieces);
      assert r == head + NonEmpty(pieces[1..]);
      forall i | 0 <= i < |r| ensures r[i] != "" && sep !in r[i] {
        if i >= |head| {
          assert r[i] == NonEmpty(pieces[1..])[i - |head|];
        }
      }
    }
  }

  lemma {:induction false} NonEmptyKeeps(pieces: seq<string>)
    requires forall i :: 0 <= i < |pieces| ==> pieces[i] != ""
    ensures NonEmpty(pieces) == pieces
    decreases |pieces|
  {
    if pieces != [] {
      NonEmptyKeeps(pieces[1..]);
      assert [pieces[0]] + pieces[1..] == pieces;
    }
  }

  /** Parsing the string form of a path gives the path back. */
  lemma PathStringRoundTrip(p: Path)
    requires ValidPath(p)
    ensures SplitPath(PathString(p)) == p
  {
    if p != [] {
      SplitJoin(p, '/');
      NonEmptyKeeps(p);
    }
  }

  // ---------------------------------------------------------------------------------------
  // Class-file names

  /** The pieces with `t` appended to the last one. */
  function AppendLast(pieces: seq<string>, t: string): (r: seq<string>)
    requires |pieces| >= 1
    ensures |r| == |pieces|
    ensures forall i :: 0 <= i < |pieces| - 1 ==> r[i] == pieces[i]
    ensures r[|r| - 1] == pieces[|pieces| - 1] + t
  {
    pieces[..|pieces| - 1] + [pieces[|pieces| - 1] + t]
  }

  lemma AppendLastAfterEmpty(r: seq<string>, t: string)
    requires |r| >= 1
    ensures AppendLast([""] + r, t) == [""] + AppendLast(r, t)
  {
    assert ([""] + r)[..|r|] == [""] + r[..|r| - 1];
  }

  lemma AppendLastExtendsFirst(c: string, r: seq<string>, t: string)
    requires |r| >= 1
    ensures var a := AppendLast(r, t);
            AppendLast([c + r[0]] + r[1..], t) == [c + a[0]] + a[1..]
  {
    var a := AppendLast(r, t);
    if |r| == 1 {
      assert c + r[0] + t == c + (r[0] + t);
    } else {
      assert a[1..] == r[1..|r| - 1] + [r[|r| - 1] + t];
      assert ([c + r[0]] + r[1..])[..|r| - 1] == [c + r[0]] + r[1..|r| - 1];
    }
  }

  /** Appending a separator-free suffix extends the last piece only. */
  lemma {:induction false} SplitAppend(x: string, t: string, sep: char)
    requires sep !in t
    ensures Split(x + t, sep) == AppendLast(Split(x, sep), t)
    decreases |x|
  {
    if x == [] {
      assert x + t == t;
      assert "" + t == t;
      SplitPieces(t, sep);
    } else {
      var s := x + t;
      assert s[0] == x[0];
      assert s[1..] == x[1..] + t;
      SplitAppend(x[1..], t, sep);
      var r := Split(x[1..], sep);
      if x[0] == sep {
        AppendLastAfterEmpty(r, t);
      } else {
        AppendLastExtendsFirst([x[0]], r, t);
      }
    }
  }

  /** Splitting after a character-for-character replacement is splitting at the replaced character. */
  lemma {:induction false} ReplaceSplit(s: string, from: char, to: char)
    requires to !in s
    ensures Split(Replace(s, from, to), to) == Split(s, from)
    decreases |s|
  {
    if s != [] {
      var r := Replace(s, from, to);
      assert r[1..] == Replace(s[1..], from, to);
      assert to !in s[1..] by {
        forall i | 0 <= i < |s[1..]| ensures s[1..][i] != to {
          assert s[1..][i] == s[i + 1];
        }
      }
      ReplaceSplit(s[1..], from, to);
      assert s[0] != to;
    }
  }

  /** The class file of a binary name lies in the package's directories, under the simple name
      followed by the suffix: "a.b.C" with ".class" resolves to ["a", "b", "C.class"]. */
  lemma ClassFilePath(className: string, suffix: string)
    requires ValidBinaryName(className)
    requires '/' !in suffix
    ensures SplitPath(ClassFileName(className, suffix))
         == PackageNames(className) + [SimpleName(className) + suffix]
  {
    var replaced := Replace(className, '.', '/');
    SplitAppend(replaced, suffix, '/');
    ReplaceSplit(className, '.', '/');
    var pieces := Split(className, '.');
    var result := AppendLast(pieces, suffix);
    assert Split(ClassFileName(className, suffix), '/') == result;
    forall i | 0 <= i < |result| ensures result[i] != "" {
      if i < |pieces| - 1 {
        assert result[i] == pieces[i];
      } else {
        assert |result[i]| >= |pieces[|pieces| - 1]| > 0;
      }
    }
    NonEmptyKeeps(result);
  }
}
