/**
  The string operations the scripts rely on, with Python's semantics:
  `str.split(sep)` with a one-character separator, `posixpath.join` of a
  directory and a file name, `posixpath.basename`, and the substring test
  `sub in s`.
 */
module Text {

  /** `s.split(sep)`: the pieces between separators, empty pieces included; never empty. */
  function Split(s: string, sep: char): (fields: seq<string>)
    ensures |fields| >= 1
    ensures forall i :: 0 <= i < |fields| ==> sep !in fields[i]
    decreases |s|
  {
    if |s| == 0 then [""]
    else
      var rest := Split(s[1..], sep);
      if s[0] == sep then [""] + rest
      else [[s[0]] + rest[0]] + rest[1..]
  }

  /** `sep.join(fields)`: the inverse of Split. */
  function JoinWith(fields: seq<string>, sep: char): string
    requires |fields| >= 1
  {
    if |fields| == 1 then fields[0] else fields[0] + [sep] + JoinWith(fields[1..], sep)
  }

  /** Joining the pieces of a split gives back the original string. */
  lemma {:induction false} JoinSplit(s: string, sep: char)
    ensures JoinWith(Split(s, sep), sep) == s
    decreases |s|
  {
    if |s| > 0 {
      var rest := Split(s[1..], sep);
      JoinSplit(s[1..], sep);
      if s[0] == sep {
        assert s == [sep] + s[1..];
      } else if |rest| == 1 {
        assert s == [s[0]] + s[1..];
      } else {
        assert rest == [rest[0]] + rest[1..];
        assert s == [s[0]] + s[1..];
      }
    }
  }

  /** A string without the separator is a single piece. */
  lemma {:induction false} SplitWithoutSeparator(s: string, sep: char)
    requires sep !in s
    ensures Split(s, sep) == [s]
    decreases |s|
  {
    if |s| > 0 {
      assert sep !in s[1..];
      SplitWithoutSeparator(s[1..], sep);
      assert s == [s[0]] + s[1..];
    }
  }

  /** Splitting at a separator splits the two sides independently. */
  lemma {:induction false} SplitAround(a: string, b: string, sep: char)
    ensures Split(a + [sep] + b, sep) == Split(a, sep) + Split(b, sep)
    decreases |a|
  {
    var s := a + [sep] + b;
    if |a| == 0 {
      assert s == [sep] + b;
      assert s[1..] == b;
    } else {
      assert s[1..] == a[1..] + [sep] + b;
      SplitAround(a[1..], b, sep);
    }
  }

  /** Splitting a join of separator-free pieces gives back the pieces. */
  lemma {:induction false} SplitJoin(fields: seq<string>, sep: char)
    requires |fields| >= 1
    requires forall i :: 0 <= i < |fields| ==> sep !in fields[i]
    ensures Split(JoinWith(fields, sep), sep) == fields
    decreases |fields|
  {
    SplitWithoutSeparator(fields[0], sep);
    if |fields| > 1 {
      SplitJoin(fields[1..], sep);
      SplitAround(fields[0], JoinWith(fields[1..], sep), sep);
    }
  }

  /** Splitting off the first field. */
  lemma SplitHead(head: string, rest: string, sep: char)
    requires sep !in head
    ensures Split(head + [sep] + rest, sep) == [head] + Split(rest, sep)
  {
    SplitAround(head, rest, sep);
    SplitWithoutSeparator(head, sep);
  }

  /** Splitting at the first two separators. */
  lemma SplitTwoFields(head: string, middle: string, rest: string, sep: char)
    requires sep !in head && sep !in middle
    ensures Split(head + [sep] + (middle + [sep] + rest), sep) == [head, middle] + Split(rest, sep)
  {
    SplitAround(head, middle + [sep] + rest, sep);
    SplitWithoutSeparator(head, sep);
    SplitAround(middle, rest, sep);
    SplitWithoutSeparator(middle, sep);
  }

  /** The first two fields, without saying anything about the rest. */
  lemma SplitFirstTwo(head: string, middle: string, rest: string, sep: char)
    requires sep !in head && sep !in middle
    ensures var fields := Split(head + [sep] + (middle + [sep] + rest), sep);
      |fields| >= 2 && fields[0] == head && fields[1] == middle
  {
    SplitTwoFields(head, middle, rest, sep);
  }

  /** `posixpath.join(dir, name)` for a relative name. */
  function PathJoin(dir: string, name: string): string {
    if |name| > 0 && name[0] == '/' then name
    else if dir == [] || dir[|dir| - 1] == '/' then dir + name
    else dir + "/" + name
  }

  /** `posixpath.basename(path)`: what follows the last '/'. */
  function Basename(path: string): (base: string)
    ensures '/' !in base
  {
    var parts := Split(path, '/');
    parts[|parts| - 1]
  }

  /** The base name of a file joined under any directory is the file's own name. */
  lemma BasenameOfJoin(dir: string, name: string)
    requires '/' !in name
    ensures Basename(PathJoin(dir, name)) == name
  {
    SplitWithoutSeparator(name, '/');
    if dir == [] {
      assert PathJoin(dir, name) == name;
    } else if dir[|dir| - 1] == '/' {
      var front := dir[..|dir| - 1];
      assert PathJoin(dir, name) == front + ['/'] + name;
      SplitAround(front, name, '/');
    } else {
      assert PathJoin(dir, name) == dir + ['/'] + name;
      SplitAround(dir, name, '/');
    }
  }

  /** `sub in s`: sub occurs in s as a contiguous piece. */
  predicate Contains(s: string, sub: string)
    decreases |s|
  {
    |sub| <= |s| && (s[..|sub|] == sub || Contains(s[1..], sub))
  }
}
