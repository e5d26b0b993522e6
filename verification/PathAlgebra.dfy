/** The algebra of path types (eden/common/utils/PathFuncs.h), which works on texts and must agree
    with operations on lists of names. */
module PathAlgebra {
  import opened Numbering
  import opened PathText
  import opened PathCanonical

  // ----- texts of names -----

  lemma RelativeOf(names: seq<string>)
    requires AllNames(names)
    ensures names != [] ==> RelativeText(names) != "" && RelativeText(names)[0] != '/' && Split(RelativeText(names)) == names
    ensures names != [] ==> Slashed(names) == "/" + RelativeText(names)
  {
    hide NoSlash;
    if names != [] {
      NamesHaveNoSlash(names);
      SplitJoined(names);
      TextNotEmpty(names);
      SlashedStarts(names);
    }
  }

  lemma AbsoluteInjective(a: seq<string>, b: seq<string>)
    requires AllNames(a) && AllNames(b)
    ensures AbsoluteText(a) == AbsoluteText(b) <==> a == b
  {
    AbsoluteWalk(a);
    AbsoluteWalk(b);
  }

  /** operator+ of an absolute and a relative path. */
  function AbsolutePlus(a: string, r: string): string {
    if r == "" then a else if a == "/" then a + r else a + "/" + r
  }

  lemma AbsolutePlusIs(a: seq<string>, r: seq<string>)
    requires AllNames(a) && AllNames(r)
    ensures AllNames(a + r) && AbsolutePlus(AbsoluteText(a), RelativeText(r)) == AbsoluteText(a + r)
  {
    hide NoSlash, Slashed, Split;
    RelativeOf(r);
    SlashedAppend(a, r);
    RootOnly(a);
    if r == [] {
      assert a + r == a;
    } else if a == [] {
      assert a + r == r;
    }
  }

  lemma RootOnly(a: seq<string>)
    requires AllNames(a)
    ensures AbsoluteText(a) == "/" <==> a == []
  {
    if a != [] {
      SlashedFirst(a);
      assert IsName(a[0]);
    }
  }

  /** operator+ of two relative paths is what joinAndNormalize() joins with. */
  lemma RelativePlusIs(a: seq<string>, b: seq<string>)
    requires AllNames(a) && AllNames(b)
    ensures Join(RelativeText(a), RelativeText(b)) == RelativeText(a + b)
  {
    hide NoSlash, Slashed, Split;
    RelativeOf(a);
    RelativeOf(b);
    SlashedAppend(a, b);
    if a == [] {
      assert a + b == b;
    } else if b == [] {
      assert a + b == a;
    }
  }

  // ----- the sanity check -----

  /** No slash at the positions start..end. */
  predicate Clear(text: string, start: nat, end: nat)
    requires end <= |text|
  {
    forall j :: start <= j < end ==> text[j] != '/'
  }

  lemma ClearSlice(text: string, start: nat, end: nat)
    requires start <= end <= |text|
    ensures Clear(text, start, end) <==> NoSlash(text[start..end])
  {
    var slice := text[start..end];
    assert forall j :: start <= j < end ==> text[j] == slice[j - start];
    assert forall i :: 0 <= i < |slice| ==> slice[i] == text[start + i];
  }

  /** The index of the next slash, or the end. */
  method NextSeparator(text: string, start: nat) returns (i: nat)
    requires start <= |text|
    ensures start <= i <= |text| && Clear(text, start, i)
    ensures i < |text| ==> text[i] == '/'
  {
    i := start;
    while i < |text| && text[i] != '/'
      invariant start <= i <= |text| && Clear(text, start, i)
    {
      i := i + 1;
    }
  }

  /** Back to just behind the previous slash. */
  method PreviousSeparator(text: string, from: nat) returns (start: nat)
    requires from <= |text|
    ensures start <= from && Clear(text, start, from) && (start > 0 ==> text[start - 1] == '/')
  {
    start := from;
    while start != 0 && text[start - 1] != '/'
      invariant start <= from && Clear(text, start, from)
    {
      start := start - 1;
    }
  }

  /** A valid component: a name without a NUL character, and whatever else isValidUtf8() demands. */
  predicate IsComponent(s: string, utf8: string -> bool) {
    IsName(s) && (forall i :: 0 <= i < |s| ==> s[i] != '\0') && utf8(s)
  }

  predicate AllComponents(segments: seq<string>, utf8: string -> bool) {
    forall k :: 0 <= k < |segments| ==> IsComponent(segments[k], utf8)
  }

  /** PathComponentSanityCheck. */
  method PathComponentSanityCheck(s: string, utf8: string -> bool) returns (ok: bool)
    ensures ok <==> IsComponent(s, utf8)
  {
    var i: nat := 0;
    while i < |s|
      invariant i <= |s|
      invariant forall j :: 0 <= j < i ==> s[j] != '/' && s[j] != '\0'
    {
      if s[i] == '/' || s[i] == '\0' {
        return false;
      }
      i := i + 1;
    }
    if s == "" || s == "." || s == ".." {
      return false;
    }
    return utf8(s);
  }

  /** ComposedPathSanityCheck: it passes exactly when every stretch between slashes is a component. */
  method ComposedPathSanityCheck(text: string, utf8: string -> bool) returns (ok: bool)
    ensures ok <==> AllComponents(Split(text), utf8)
  {
    hide Split, IsComponent;
    var start: nat := 0;
    ghost var done: seq<string> := [];
    assert text[0..] == text;
    while true
      invariant start <= |text|
      invariant done + Split(text[start..]) == Split(text) && AllComponents(done, utf8)
      decreases |text| - start
    {
      var next := NextSeparator(text, start);
      var component := text[start..next];
      ClearSlice(text, start, next);
      ok := PathComponentSanityCheck(component, utf8);
      if next == |text| {
        SplitFirst(component, "");
        assert text[start..] == component;
        AllComponentsAppend(done, component, [], utf8);
        assert (done + [component]) + [] == done + [component];
        return;
      }
      SplitFirst(component, text[next + 1..]);
      assert text[start..] == component + "/" + text[next + 1..];
      assert done + ([component] + Split(text[next + 1..])) == (done + [component]) + Split(text[next + 1..]);
      AllComponentsAppend(done, component, Split(text[next + 1..]), utf8);
      if !ok {
        return;
      }
      done := done + [component];
      start := next + 1;
    }
  }

  lemma AllComponentsAppend(done: seq<string>, name: string, rest: seq<string>, utf8: string -> bool)
    ensures AllComponents((done + [name]) + rest, utf8) <==>
      AllComponents(done, utf8) && IsComponent(name, utf8) && AllComponents(rest, utf8)
    ensures AllComponents(done + [name], utf8) <==> AllComponents(done, utf8) && IsComponent(name, utf8)
  {
    hide IsComponent;
    var all := (done + [name]) + rest;
    assert all[|done|] == name;
    assert forall k :: 0 <= k < |rest| ==> all[|done| + 1 + k] == rest[k];
    assert forall k :: 0 <= k < |done| ==> all[k] == done[k];
    assert (done + [name])[|done|] == name;
  }

  /** RelativePathSanityCheck: it accepts exactly the texts of lists of components. */
  method RelativePathSanityCheck(text: string, utf8: string -> bool) returns (ok: bool)
    ensures ok ==> text == "" || (AllComponents(Split(text), utf8) && text == RelativeText(Split(text)))
    ensures forall names :: AllComponents(names, utf8) && text == RelativeText(names) ==> ok
  {
    hide Split, NoSlash, Slashed, IsName;
    forall names | AllComponents(names, utf8) && text == RelativeText(names)
      ensures text == "" || (text[0] != '/' && text[|text| - 1] != '/' && AllComponents(Split(text), utf8))
    {
      assert AllNames(names);
      RelativeOf(names);
      if names != [] {
        EndsInName(names);
      }
    }
    if text == "" {
      return true;
    }
    if text[0] == '/' || text[|text| - 1] == '/' {
      return false;
    }
    ok := ComposedPathSanityCheck(text, utf8);
    SplitSlashed(text);
  }

  lemma EndsInName(names: seq<string>)
    requires AllNames(names) && names != []
    ensures var t := RelativeText(names); t != "" && t[|t| - 1] != '/'
  {
    var last := names[|names| - 1];
    assert IsName(last);
    SlashedLast(names[..|names| - 1], last);
    assert names == names[..|names| - 1] + [last];
  }

  // ----- findParent, isSubDirOf -----

  /** The position of the returned iterator; None is allPaths().end(). */
  function FindParent(path: string, parent: string): Option<nat> {
    if |path| <= |parent| then None
    else if parent == "" then Some(0)
    else if path[|parent|] != '/' then None
    else if path[..|parent|] != parent then None
    else Some(|parent|)
  }

  /** isSubDirOf() holds exactly when the other's names are a proper prefix, and then the iterator
      stands right behind them. */
  lemma SubDirIsProperPrefix(path: seq<string>, parent: seq<string>)
    requires AllNames(path) && AllNames(parent)
    ensures FindParent(RelativeText(path), RelativeText(parent)).Some? <==> parent < path
    ensures parent < path ==> FindParent(RelativeText(path), RelativeText(parent)) == Some(|RelativeText(parent)|)
  {
    hide Split, NoSlash, Slashed, IsName;
    var p, q := RelativeText(path), RelativeText(parent);
    RelativeOf(path);
    RelativeOf(parent);
    if parent < path {
      var rest := path[|parent|..];
      assert path == parent + rest;
      SlashedAppend(parent, rest);
      SlashedStarts(rest);
      if parent != [] {
        assert p == q + Slashed(rest);
      }
    }
    if FindParent(p, q).Some? && q != "" {
      var t := p[|q| + 1..];
      assert p == q + "/" + t;
      SplitConcat(q, t);
    }
  }

  // ----- iterators over the prefixes of an absolute path; relativize -----

  /** Where the iterator stands on the prefix of the first k names. */
  function Position(names: seq<string>, k: nat): nat
    requires k <= |names|
  {
    |AbsoluteText(names[..k])|
  }

  lemma PrefixAt(names: seq<string>, k: nat)
    requires AllNames(names) && k <= |names|
    ensures var text := AbsoluteText(names);
      && 0 < Position(names, k) <= |text| && text[..Position(names, k)] == AbsoluteText(names[..k])
      && (k == |names| <==> Position(names, k) == |text|)
  {
    hide NoSlash, Slashed, IsName;
    var rest := names[k..];
    assert names == names[..k] + rest;
    SlashedAppend(names[..k], rest);
    SlashedStarts(names[..k]);
    SlashedStarts(rest);
    SlashedStarts(names);
    if k == 0 && names != [] {
      RootOnly(names);
      RootIsShortest(names);
    }
    if rest == [] {
      assert names[..k] == names;
    }
  }

  lemma RootIsShortest(names: seq<string>)
    requires AllNames(names) && names != []
    ensures |AbsoluteText(names)| > 1
  {
    SlashedFirst(names);
    assert IsName(names[0]);
  }

  /** From one prefix to the next there is one name and no slash but the one in front of it. */
  lemma NextPrefix(names: seq<string>, k: nat)
    requires AllNames(names) && k < |names|
    ensures var text, next := AbsoluteText(names), Position(names, k + 1);
      && Position(names, k) < next <= |text|
      && Clear(text, Position(names, k) + 1, next)
      && (next < |text| ==> text[next] == '/')
  {
    hide Slashed;
    var text, name, rest := AbsoluteText(names), names[k], names[k + 1..];
    assert IsName(name);
    PrefixAt(names, k);
    PrefixAt(names, k + 1);
    assert names[..k + 1] == names[..k] + [name];
    SlashedLast(names[..k], name);
    assert names == names[..k + 1] + rest;
    SlashedAppend(names[..k + 1], rest);
    SlashedStarts(rest);
    SlashedStarts(names[..k + 1]);
    var from, next := Position(names, k), Position(names, k + 1);
    assert text == Slashed(names[..k]) + "/" + name + Slashed(rest);
    assert next == |Slashed(names[..k])| + 1 + |name|;
    NameBehind(Slashed(names[..k]), name, Slashed(rest), from);
  }

  lemma NameBehind(front: string, name: string, rest: string, from: nat)
    requires NoSlash(name) && |front| <= from <= |front| + 1
    requires name != "" && (rest == "" || rest[0] == '/')
    ensures var text, next := front + "/" + name + rest, |front| + 1 + |name|;
      from < next <= |text| && Clear(text, from + 1, next) && (next < |text| ==> text[next] == '/')
  {
    var text, next := front + "/" + name + rest, |front| + 1 + |name|;
    assert text[next..] == rest;
    assert forall i :: 0 <= i < |name| ==> text[|front| + 1 + i] == name[i];
  }

  /** ComposedPathIterator over an absolute path, going forwards; atEnd stands for a null position. */
  class PathIterator {
    const path: string
    var pos: nat
    var atEnd: bool

    constructor (path: string)
      requires path != ""
      ensures this.path == path && pos == 1 && !atEnd
    {
      this.path, pos, atEnd := path, 1, false;
    }

    ghost predicate At(names: seq<string>, k: nat)
      reads this
    {
      && AllNames(names) && path == AbsoluteText(names)
      && if atEnd then k == |names| + 1 else k <= |names| && pos == Position(names, k)
    }

    method Advance(ghost names: seq<string>, ghost k: nat)
      requires At(names, k) && !atEnd
      modifies this
      ensures At(names, k + 1)
    {
      hide NoSlash, Slashed, IsName;
      PrefixAt(names, k);
      if pos == |path| {
        atEnd := true;
        return;
      }
      NextPrefix(names, k);
      pos := NextSeparator(path, pos + 1);
      SameSeparator(path, Position(names, k) + 1, pos, Position(names, k + 1));
    }

    method Piece(ghost names: seq<string>, ghost k: nat) returns (r: string)
      requires At(names, k) && !atEnd
      ensures r == AbsoluteText(names[..k])
    {
      PrefixAt(names, k);
      r := path[..pos];
    }

    /** remainder(): what is to the right, without the character at the position. */
    method Remainder() returns (r: string)
      requires !atEnd
      ensures r == RemainderAt(path, pos)
    {
      r := if pos < |path| then path[pos + 1..] else "";
    }
  }

  function RemainderAt(path: string, pos: nat): string {
    if pos < |path| then path[pos + 1..] else ""
  }

  lemma SameSeparator(text: string, start: nat, i: nat, j: nat)
    requires start <= i <= |text| && Clear(text, start, i) && (i < |text| ==> text[i] == '/')
    requires start <= j <= |text| && Clear(text, start, j) && (j < |text| ==> text[j] == '/')
    ensures i == j
  {
  }

  lemma SamePrevious(text: string, end: nat, i: nat, j: nat)
    requires i <= end <= |text| && Clear(text, i, end) && (i > 0 ==> text[i - 1] == '/')
    requires j <= end && Clear(text, j, end) && (j > 0 ==> text[j - 1] == '/')
    ensures i == j
  {
  }

  /** What relativize() returns for the names of the base and of the child; None is its exception. */
  function Relativized(base: seq<string>, child: seq<string>): Option<string> {
    if !(base <= child) then None
    else if base != [] then Some(RelativeText(child[|base|..]))
    else if child == [] then Some("")
    else
      SlashedStarts(child);
      Some(if |Slashed(child)| >= 2 then Slashed(child)[2..] else "")
  }

  lemma RemainderIs(names: seq<string>, k: nat)
    requires AllNames(names) && k <= |names|
    ensures Some(RemainderAt(AbsoluteText(names), Position(names, k))) == Relativized(names[..k], names)
  {
    hide NoSlash, Slashed, IsName;
    var rest := names[k..];
    assert names == names[..k] + rest;
    PrefixAt(names, k);
    SlashedAppend(names[..k], rest);
    SlashedStarts(rest);
    SlashedStarts(names);
    if k == 0 && names != [] {
      RootIsShortest(names);
    }
  }

  method Relativize(base: string, child: string, ghost bs: seq<string>, ghost cs: seq<string>) returns (r: Option<string>)
    requires AllNames(bs) && AllNames(cs) && base == AbsoluteText(bs) && child == AbsoluteText(cs)
    ensures r == Relativized(bs, cs)
  {
    hide NoSlash, Slashed, IsName, RemainderAt;
    PrefixAt(bs, 0);
    PrefixAt(cs, 0);
    var myIter := new PathIterator(base);
    var childIter := new PathIterator(child);
    ghost var k: nat := 0;
    while true
      invariant myIter != childIter && myIter.path == base && childIter.path == child
      invariant !myIter.atEnd && myIter.At(bs, k) && childIter.At(cs, k)
      invariant fresh(myIter) && fresh(childIter)
      invariant k > 0 ==> bs[..k - 1] == cs[..k - 1]
      decreases |bs| - k
    {
      if childIter.atEnd {
        assert bs[..k] <= bs;
        return None;
      }
      var mine := myIter.Piece(bs, k);
      var his := childIter.Piece(cs, k);
      NamesPrefix(bs, k);
      NamesPrefix(cs, k);
      AbsoluteInjective(bs[..k], cs[..k]);
      PrefixOfPrefix(bs, cs, k);
      if mine != his {
        return None;
      }
      myIter.Advance(bs, k);
      if !myIter.atEnd {
        childIter.Advance(cs, k);
        k := k + 1;
      } else {
        break;
      }
    }
    assert bs[..k] == bs;
    RemainderIs(cs, k);
    var remainder := childIter.Remainder();
    r := Some(remainder);
  }

  lemma PrefixOfPrefix(a: seq<string>, b: seq<string>, k: nat)
    requires k <= |a| && k <= |b|
    ensures a <= b ==> a[..k] == b[..k]
  {
  }

  lemma NamesPrefix(names: seq<string>, k: nat)
    requires AllNames(names) && k <= |names|
    ensures AllNames(names[..k])
  {
  }

  /** relativize() succeeds exactly when the base's names are a prefix of the child's, and undoes
      operator+ except from the root, where it loses the first character: there it returns r from
      root + r only when r is empty. */
  lemma RelativizeUndoesPlus(base: seq<string>, child: seq<string>, r: seq<string>)
    requires AllNames(base) && AllNames(child) && AllNames(r)
    ensures Relativized(base, child).Some? <==> base <= child
    ensures Relativized(base, base + r) == Some(RelativeText(r)) <==> base != [] || r == []
  {
    hide NoSlash, Slashed, IsName;
    SlashedStarts(r);
    assert (base + r)[|base|..] == r;
    assert base <= base + r;
    if base == [] {
      assert base + r == r;
      if r != [] {
        RootIsShortest(r);
        assert |RelativeText(r)| == |Slashed(r)| - 1;
      }
    }
  }

  // ----- components() and rcomponents() -----

  /** Where name number k begins and ends in the text of a relative path. */
  function StartOf(names: seq<string>, k: nat): nat
    requires k < |names|
  {
    |Slashed(names[..k])|
  }

  function EndOf(names: seq<string>, k: nat): nat
    requires k < |names|
  {
    StartOf(names, k) + |names[k]|
  }

  lemma NameAt(names: seq<string>, k: nat)
    requires AllNames(names) && k < |names|
    ensures var text, start, end := RelativeText(names), StartOf(names, k), EndOf(names, k);
      && start < end <= |text| && text[start..end] == names[k] && Clear(text, start, end)
      && (if k == 0 then start == 0 else start > 0 && text[start - 1] == '/')
      && (if k + 1 == |names| then end == |text| else end < |text| && text[end] == '/' && StartOf(names, k + 1) == end + 1)
  {
    hide NoSlash, Slashed, Clear, RelativeText;
    var text, name, rest := RelativeText(names), names[k], names[k + 1..];
    assert IsName(name);
    NameSplits(names, k);
    Middle(Slashed(names[..k]), name, Slashed(rest), text);
    ClearSlice(text, StartOf(names, k), EndOf(names, k));
  }

  /** The text around name number k. */
  lemma NameSplits(names: seq<string>, k: nat)
    requires AllNames(names) && k < |names|
    ensures var rest := names[k + 1..];
      && "/" + RelativeText(names) == Slashed(names[..k]) + "/" + names[k] + Slashed(rest)
      && (if rest == [] then Slashed(rest) == "" else Slashed(rest) != "" && Slashed(rest)[0] == '/')
      && (if k == 0 then Slashed(names[..k]) == "" else Slashed(names[..k]) != "")
      && |Slashed(names[..k + 1])| == |Slashed(names[..k])| + 1 + |names[k]|
  {
    hide NoSlash, Slashed, IsName, RelativeText;
    var rest := names[k + 1..];
    RelativeOf(names);
    assert names == names[..k + 1] + rest && names[..k + 1] == names[..k] + [names[k]];
    SlashedLast(names[..k], names[k]);
    SlashedAppend(names[..k + 1], rest);
    SlashedStarts(rest);
    SlashedStarts(names[..k]);
    SlashedNone();
    assert k == 0 ==> names[..k] == [];
  }

  lemma Middle(front: string, name: string, rest: string, text: string)
    requires "/" + text == front + "/" + name + rest && name != ""
    ensures var start := |front|;
      && start + |name| <= |text| && text[start..start + |name|] == name
      && (start > 0 ==> text[start - 1] == '/')
      && text[start + |name|..] == rest
  {
    var whole := "/" + text;
    assert whole[|front| + 1..|front| + 1 + |name|] == name;
    assert whole[|front| + 1 + |name|..] == rest;
    assert whole[|front|] == '/';
    assert forall i :: 0 <= i < |text| ==> text[i] == whole[i + 1];
  }

  function Reversed(names: seq<string>): seq<string> {
    if names == [] then [] else Reversed(names[1..]) + [names[0]]
  }

  /** components() from begin to end; `path` has its root already removed. */
  method Components(path: string, ghost names: seq<string>) returns (r: seq<string>)
    requires AllNames(names) && path == RelativeText(names)
    ensures r == names
  {
    hide NoSlash, Slashed, IsName, RelativeText, StartOf, EndOf, AllNames;
    EmptyText(names);
    r := [];
    var start: nat := 0;
    var end := NextSeparator(path, 0);
    if names != [] {
      NameAt(names, 0);
      SameSeparator(path, 0, end, EndOf(names, 0));
    }
    while !(start == |path| && end == |path|)
      invariant |r| <= |names| && r == names[..|r|]
      invariant |r| == |names| ==> start == |path| && end == |path|
      invariant |r| < |names| ==> start == StartOf(names, |r|) && end == EndOf(names, |r|)
      decreases |names| - |r|
    {
      ghost var k := |r|;
      NameAt(names, k);
      r := r + [path[start..end]];
      if end == |path| {
        start := end;
      } else {
        start := end + 1;
        end := NextSeparator(path, start);
        NameAt(names, k + 1);
        SameSeparator(path, start, end, EndOf(names, k + 1));
      }
    }
    if |r| < |names| {
      NameAt(names, |r|);
    }
  }

  lemma EmptyText(names: seq<string>)
    requires AllNames(names)
    ensures RelativeText(names) == "" <==> names == []
  {
    RelativeOf(names);
  }

  /** Name number k lies at start..end. */
  predicate NameLies(path: string, names: seq<string>, k: nat, start: nat, end: nat) {
    && k < |names| && path == RelativeText(names) && start == StartOf(names, k) && end == EndOf(names, k)
  }

  lemma LastName(path: string, names: seq<string>, start: nat)
    requires AllNames(names) && path == RelativeText(names) && names != []
    requires start <= |path| && Clear(path, start, |path|) && (start > 0 ==> path[start - 1] == '/')
    ensures NameLies(path, names, |names| - 1, start, |path|)
  {
    hide NoSlash, Slashed, Clear, RelativeText, StartOf, EndOf;
    NameAt(names, |names| - 1);
    SamePrevious(path, |path|, start, StartOf(names, |names| - 1));
  }

  lemma NameHere(path: string, names: seq<string>, k: nat, start: nat, end: nat)
    requires AllNames(names) && NameLies(path, names, k, start, end)
    ensures start < end <= |path| && path[start..end] == names[k] && (k == 0 <==> start == 0)
  {
    hide NoSlash, Slashed, Clear, RelativeText, StartOf, EndOf;
    NameAt(names, k);
  }

  lemma NameBefore(path: string, names: seq<string>, k: nat, start: nat, end: nat, start': nat)
    requires AllNames(names) && NameLies(path, names, k, start, end) && k > 0 && 0 < start <= |path|
    requires start' < start && Clear(path, start', start - 1) && (start' > 0 ==> path[start' - 1] == '/')
    ensures NameLies(path, names, k - 1, start', start - 1)
  {
    hide NoSlash, Slashed, Clear, RelativeText, StartOf, EndOf;
    NameAt(names, k - 1);
    NameAt(names, k);
    SamePrevious(path, start - 1, start', StartOf(names, k - 1));
  }

  /** rcomponents() from begin to end. */
  method ReverseComponents(path: string, ghost names: seq<string>) returns (r: seq<string>)
    requires AllNames(names) && path == RelativeText(names)
    ensures r == Reversed(names)
  {
    hide RelativeText, AllNames, Reversed, NameLies, Clear;
    EmptyText(names);
    r := [];
    var end: nat := |path|;
    var start: nat := PreviousSeparator(path, end);
    ghost var k := |names|;
    ReversedFrom(names, k);
    if names != [] {
      LastName(path, names, start);
    }
    while !(start == 0 && end == 0)
      invariant 0 <= k <= |names|
      invariant r == Reversed(names[k..])
      invariant if k == 0 then start == 0 && end == 0 else NameLies(path, names, k - 1, start, end)
      decreases k
    {
      NameHere(path, names, k - 1, start, end);
      r := r + [path[start..end]];
      ReversedFrom(names, k - 1);
      if start == 0 {
        end := 0;
      } else {
        ghost var start0, end0 := start, end;
        end := start - 1;
        start := PreviousSeparator(path, end);
        NameBefore(path, names, k - 1, start0, end0, start);
      }
      k := k - 1;
    }
    if k > 0 {
      NameHere(path, names, k - 1, start, end);
    }
    assert names[0..] == names;
  }

  lemma ReversedFrom(names: seq<string>, k: nat)
    requires k <= |names|
    ensures Reversed(names[k..]) == if k == |names| then [] else Reversed(names[k + 1..]) + [names[k]]
  {
    if k < |names| {
      assert names[k..][1..] == names[k + 1..];
    }
  }

  // ----- dirname, basename, splitFirst -----

  /** rfind: the last slash, or None. */
  function LastSlash(text: string): (r: Option<nat>)
    ensures r.Some? ==> r.value < |text| && text[r.value] == '/' && Clear(text, r.value + 1, |text|)
    ensures r.None? ==> Clear(text, 0, |text|)
  {
    if text == "" then None
    else if text[|text| - 1] == '/' then Some(|text| - 1)
    else LastSlash(text[..|text| - 1])
  }

  function Dirname(path: string): string {
    match LastSlash(path)
    case Some(i) => path[..i]
    case None => ""
  }

  function Basename(path: string): string {
    match LastSlash(path)
    case Some(i) => path[i + 1..]
    case None => path
  }

  lemma LastSlashIs(a: string, b: string)
    requires NoSlash(b)
    ensures LastSlash(a + "/" + b) == Some(|a|)
  {
    hide LastSlash;
    var text := a + "/" + b;
    assert text[|a|] == '/' && text[|a| + 1..] == b;
    ClearSlice(text, |a| + 1, |text|);
    SamePrevious(text, |text|, LastSlash(text).value + 1, |a| + 1);
  }

  /** They take a relative path apart at its last name; of an absolute path dirname() is the parent
      exactly when it has at least two names, and otherwise empty, which is no absolute path. */
  lemma DirnameBasename(names: seq<string>)
    requires AllNames(names) && names != []
    ensures var front, last := names[..|names| - 1], names[|names| - 1];
      && Dirname(RelativeText(names)) == RelativeText(front) && Basename(RelativeText(names)) == last
      && Basename(AbsoluteText(names)) == last
      && (Dirname(AbsoluteText(names)) == AbsoluteText(front) <==> |names| >= 2)
      && (|names| == 1 ==> Dirname(AbsoluteText(names)) == "")
  {
    hide LastSlash, Slashed;
    var front, last := names[..|names| - 1], names[|names| - 1];
    assert IsName(last);
    assert names == front + [last];
    SlashedLast(front, last);
    LastSlashIs(Slashed(front), last);
    SlashedStarts(names);
    SlashedStarts(front);
    assert Slashed(names)[..|Slashed(front)|] == Slashed(front) && Slashed(names)[|Slashed(front)| + 1..] == last;
    if front == [] {
      assert RelativeText(names) == last;
    } else {
      var t := Slashed(front)[1..];
      assert RelativeText(names) == t + "/" + last;
      LastSlashIs(t, last);
      assert RelativeText(names)[..|t|] == t && RelativeText(names)[|t| + 1..] == last;
    }
  }

  /** splitFirst(). */
  function SplitFirstOf(path: string): (string, string) {
    var i := FirstSlash(path);
    if i < |path| then (path[..i], path[i + 1..]) else (path, "")
  }

  lemma SplitFirstIs(names: seq<string>)
    requires AllNames(names) && names != []
    ensures SplitFirstOf(RelativeText(names)) == (names[0], RelativeText(names[1..]))
  {
    hide FirstSlash, Slashed;
    assert IsName(names[0]);
    SlashedFirst(names);
    SlashedStarts(names[1..]);
    SlashedNone();
    var text := RelativeText(names);
    assert text == names[0] + Slashed(names[1..]);
    FirstSlashIs(names[0], text);
    if names[1..] == [] {
      assert text == names[0];
    } else {
      assert text[|names[0]| + 1..] == Slashed(names[1..])[1..];
    }
  }
}
