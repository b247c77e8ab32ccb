/** Path handling shared by both daemons: `Path::new(dir).join(name).display()`
    on a Unix host, and the final component of a path. */
module Paths {

  const Separator: char := '/'

  /** Outcome of `Path::try_exists`: the path exists, it does not, or the
      check itself failed. */
  datatype Probe = Present | Absent | ProbeFailed(detail: string)

  predicate IsAbsolute(p: string)
  {
    |p| > 0 && p[0] == Separator
  }

  /** `Path::join` on Unix: an absolute `name` replaces `dir`; otherwise a
      separator is inserted only when `dir` is non-empty and does not already
      end in one. */
  function Join(dir: string, name: string): (p: string)
    ensures IsAbsolute(name) ==> p == name
    ensures !IsAbsolute(name) ==> |p| >= |dir| + |name| && p[..|dir|] == dir && p[|p| - |name|..] == name
    ensures !IsAbsolute(name) && dir != [] && dir[|dir| - 1] != Separator ==> p == dir + [Separator] + name
    ensures !IsAbsolute(name) && (dir == [] || dir[|dir| - 1] == Separator) ==> p == dir + name
  {
    if IsAbsolute(name) then name
    else if dir != [] && dir[|dir| - 1] != Separator then dir + [Separator] + name
    else dir + name
  }

  /** The characters after the last separator (all of `p` when it has none). */
  function FinalComponent(p: string): (c: string)
    ensures Separator !in c
    ensures |c| <= |p|
  {
    if p == [] then []
    else if p[|p| - 1] == Separator then []
    else FinalComponent(p[..|p| - 1]) + [p[|p| - 1]]
  }

  /** The final component is a suffix of the path. */
  lemma {:induction false} FinalComponentIsSuffix(p: string)
    ensures FinalComponent(p) == p[|p| - |FinalComponent(p)|..]
    decreases |p|
  {
    if p != [] && p[|p| - 1] != Separator {
      var init := p[..|p| - 1];
      FinalComponentIsSuffix(init);
      assert p[|p| - |FinalComponent(p)|..] == init[|init| - |FinalComponent(init)|..] + [p[|p| - 1]];
    }
  }

  /** Appending one character either starts a new component or extends the
      current one. */
  lemma FinalComponentSnoc(p: string, ch: char)
    ensures FinalComponent(p + [ch]) == if ch == Separator then [] else FinalComponent(p) + [ch]
  {
    assert (p + [ch])[..|p|] == p;
  }

  /** Appending text without a separator extends the final component. */
  lemma {:induction false} FinalComponentExtend(x: string, y: string)
    requires Separator !in y
    ensures FinalComponent(x + y) == FinalComponent(x) + y
    decreases |y|
  {
    if y == [] {
      assert x + y == x && FinalComponent(x) + y == FinalComponent(x);
    } else {
      var last, y' := y[|y| - 1], y[..|y| - 1];
      assert y == y' + [last] && x + y == (x + y') + [last];
      assert last != Separator && Separator !in y';
      FinalComponentSnoc(x + y', last);
      FinalComponentExtend(x, y');
      assert FinalComponent(x) + y' + [last] == FinalComponent(x) + y;
    }
  }

  /** Once the appended text holds a separator, it alone decides the final
      component. */
  lemma {:induction false} FinalComponentRestart(x: string, y: string)
    requires Separator in y
    ensures FinalComponent(x + y) == FinalComponent(y)
    decreases |y|
  {
    var last, y' := y[|y| - 1], y[..|y| - 1];
    assert y == y' + [last] && x + y == (x + y') + [last];
    FinalComponentSnoc(x + y', last);
    FinalComponentSnoc(y', last);
    if last != Separator {
      assert Separator in y';
      FinalComponentRestart(x, y');
    }
  }

  /** Joining a directory never changes the final component of the name being
      joined: the marker keeps its file name on both hosts. */
  lemma JoinKeepsFinalComponent(dir: string, name: string)
    ensures FinalComponent(Join(dir, name)) == FinalComponent(name)
  {
    if !IsAbsolute(name) {
      var head := if dir != [] && dir[|dir| - 1] != Separator then dir + [Separator] else dir;
      assert Join(dir, name) == head + name;
      assert FinalComponent(head) == [];
      if Separator in name {
        FinalComponentRestart(head, name);
      } else {
        FinalComponentExtend(head, name);
        FinalComponentExtend([], name);
        assert [] + name == name;
      }
    }
  }
}
