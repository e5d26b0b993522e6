/** canonicalPath() and joinAndNormalize() (eden/common/utils/PathFuncs.cpp), whose one pass over the
    text must agree with resolving the path one step at a time. */
module PathCanonical {
  import opened PathText

  // ----- resolving one step at a time -----

  /** Where a walk stands that may leave its starting directory: how far above the start it has come
      at most, and the names below that point. */
  datatype Place = Place(ups: nat, names: seq<string>)

  function WalkStep(p: Place, segment: string): Place {
    if segment == "" || segment == "." then p
    else if segment == ".." then
      if p.names == [] then p.(ups := p.ups + 1) else p.(names := p.names[..|p.names| - 1])
    else p.(names := p.names + [segment])
  }

  function Walk(segments: seq<string>): Place {
    if segments == [] then Place(0, []) else WalkStep(Walk(segments[..|segments| - 1]), segments[|segments| - 1])
  }

  /** The same from a directory that cannot be left: at the root, ".." stays. */
  function ResolveStep(at: seq<string>, segment: string): seq<string> {
    if segment == "" || segment == "." then at
    else if segment == ".." then if at == [] then [] else at[..|at| - 1]
    else at + [segment]
  }

  function Resolve(at: seq<string>, segments: seq<string>): seq<string> {
    if segments == [] then at else ResolveStep(Resolve(at, segments[..|segments| - 1]), segments[|segments| - 1])
  }

  function Drop(at: seq<string>, n: nat): seq<string> {
    if n <= |at| then at[..|at| - n] else []
  }

  /** Both resolutions agree: what the walk takes back above its start is taken from the end of `at`. */
  lemma {:induction false} ResolveIsWalk(at: seq<string>, segments: seq<string>)
    ensures Resolve(at, segments) == Drop(at, Walk(segments).ups) + Walk(segments).names
  {
    hide ResolveStep, WalkStep, Drop;
    if segments == [] {
      NothingDropped(at);
    } else {
      ResolveIsWalk(at, segments[..|segments| - 1]);
      ResolveStepIsWalkStep(at, Walk(segments[..|segments| - 1]), segments[|segments| - 1]);
    }
  }

  lemma NothingDropped(at: seq<string>)
    ensures Drop(at, 0) + [] == at
  {
  }

  lemma ResolveStepIsWalkStep(at: seq<string>, p: Place, segment: string)
    ensures var q := WalkStep(p, segment); ResolveStep(Drop(at, p.ups) + p.names, segment) == Drop(at, q.ups) + q.names
  {
    if segment == ".." && p.names == [] {
      assert Drop(at, p.ups) + [] == Drop(at, p.ups);
      assert Drop(at, p.ups + 1) + [] == Drop(at, p.ups + 1);
    } else if segment == ".." {
      var names := p.names[..|p.names| - 1];
      assert (Drop(at, p.ups) + p.names)[..|Drop(at, p.ups) + p.names| - 1] == Drop(at, p.ups) + names;
    } else {
      assert Drop(at, p.ups) + (p.names + [segment]) == (Drop(at, p.ups) + p.names) + [segment];
    }
  }

  /** How many names a stretch adds to the depth. */
  function Height(segments: seq<string>): int {
    if segments == [] then 0
    else
      var last := segments[|segments| - 1];
      Height(segments[..|segments| - 1]) + if last == "" || last == "." then 0 else if last == ".." then -1 else 1
  }

  /** After some number of its steps the walk is n levels above its start. */
  predicate GoesAbove(segments: seq<string>, n: nat) {
    exists k :: 0 <= k <= |segments| && Height(segments[..k]) + n <= 0
  }

  lemma {:induction false} WalkHeight(segments: seq<string>)
    ensures Height(segments) == |Walk(segments).names| - Walk(segments).ups
  {
    if segments != [] {
      WalkHeight(segments[..|segments| - 1]);
    }
  }

  lemma {:induction false} UpsGrow(segments: seq<string>, k: nat)
    requires k <= |segments|
    ensures Walk(segments[..k]).ups <= Walk(segments).ups
  {
    if k == |segments| {
      assert segments[..k] == segments;
    } else {
      var front := segments[..|segments| - 1];
      UpsGrow(front, k);
      assert front[..k] == segments[..k];
    }
  }

  lemma {:induction false} UpsMeansAbove(segments: seq<string>, n: nat)
    requires n > 0
    ensures Walk(segments).ups >= n <==> GoesAbove(segments, n)
  {
    if GoesAbove(segments, n) {
      var k :| 0 <= k <= |segments| && Height(segments[..k]) + n <= 0;
      WalkHeight(segments[..k]);
      UpsGrow(segments, k);
    }
    if Walk(segments).ups >= n {
      var front := segments[..|segments| - 1];
      UpsMeansAbove(front, n);
      if GoesAbove(front, n) {
        var k :| 0 <= k <= |front| && Height(front[..k]) + n <= 0;
        assert front[..k] == segments[..k];
      } else {
        WalkHeight(segments);
        assert segments[..|segments|] == segments;
      }
    }
  }

  // ----- names -----

  /** A PathComponent, up to its bytes being valid UTF-8 without NUL. */
  predicate IsName(s: string) {
    s != "" && s != "." && s != ".." && NoSlash(s)
  }

  predicate AllNames(names: seq<string>) {
    forall k :: 0 <= k < |names| ==> IsName(names[k])
  }

  lemma {:induction false} WalkNames(segments: seq<string>)
    requires forall k :: 0 <= k < |segments| ==> NoSlash(segments[k])
    ensures AllNames(Walk(segments).names)
  {
    hide NoSlash;
    if segments != [] {
      WalkNames(segments[..|segments| - 1]);
    }
  }

  lemma {:induction false} WalkOfNames(names: seq<string>)
    requires AllNames(names)
    ensures Walk(names) == Place(0, names)
  {
    hide NoSlash, Walk;
    if names == [] {
      WalkNone();
    } else {
      var front, last := names[..|names| - 1], names[|names| - 1];
      WalkOfNames(front);
      WalkStepOn(front, last);
      assert names == front + [last] && IsName(last);
    }
  }

  // ----- canonicalPathData -----

  /** What canonicalPathData() should return: a single ".." stands for having gone above the start. */
  function Canonical(path: string): (seq<string>, bool) {
    var p := Walk(Split(path));
    if path != "" && path[0] == '/' then (p.names, true)
    else (if p.ups > 0 then [".."] + p.names else p.names, false)
  }

  /** The components that the loop has gathered from the segments before the current one. */
  function Gathered(p: Place, isAbsolute: bool): seq<string> {
    if p.ups > 0 && !isAbsolute then [".."] + p.names else p.names
  }

  lemma WalkStepOn(done: seq<string>, segment: string)
    ensures Walk(done + [segment]) == WalkStep(Walk(done), segment)
  {
    assert (done + [segment])[..|done|] == done;
  }

  /** The lambda processSlash: one more component. */
  method ProcessSlash(component: string, atStart: bool, components: seq<string>, isAbsolute: bool, ghost done: seq<string>)
    returns (components': seq<string>, isAbsolute': bool)
    requires NoSlash(component) && AllNames(Walk(done).names)
    requires components == Gathered(Walk(done), isAbsolute)
    requires atStart ==> done == [] && !isAbsolute
    ensures isAbsolute' == (isAbsolute || (component == "" && atStart))
    ensures components' == Gathered(Walk(done + [component]), isAbsolute')
    ensures AllNames(Walk(done + [component]).names)
  {
    hide Walk, NoSlash;
    WalkStepOn(done, component);
    WalkNone();
    components', isAbsolute' := components, isAbsolute;
    if component == "" {
      if atStart {
        isAbsolute' := true;
      }
    } else if component == "." {
    } else if component == ".." {
      if components' == [] {
        if !isAbsolute' {
          components' := components' + [component];
        }
      } else if components'[|components'| - 1] != ".." {
        components' := components'[..|components'| - 1];
      }
    } else {
      components' := components' + [component];
    }
  }

  lemma WalkNone()
    ensures Walk([]) == Place(0, [])
  {
  }

  /** canonicalPathData(): the loop over the text finds the components of the step-by-step walk. */
  method CanonicalPathData(path: string) returns (components: seq<string>, isAbsolute: bool)
    ensures (components, isAbsolute) == Canonical(path)
  {
    hide Walk, Split, AllNames;
    components, isAbsolute := [], false;
    var componentStart: nat := 0;
    ghost var done: seq<string> := [];
    WalkNone();
    AllNamesNone();
    var p: nat := 0;
    assert path[0..] == path;
    while p != |path|
      invariant componentStart <= p <= |path|
      invariant NoSlash(path[componentStart..p])
      invariant done + Split(path[componentStart..]) == Split(path)
      invariant componentStart == 0 ==> done == [] && !isAbsolute
      invariant componentStart > 0 ==> isAbsolute == (path[0] == '/')
      invariant components == Gathered(Walk(done), isAbsolute) && AllNames(Walk(done).names)
    {
      if path[p] == '/' {
        var component := path[componentStart..p];
        SplitFirst(component, path[p + 1..]);
        assert path[componentStart..] == component + "/" + path[p + 1..];
        assert done + ([component] + Split(path[p + 1..])) == (done + [component]) + Split(path[p + 1..]);
        components, isAbsolute := ProcessSlash(component, componentStart == 0, components, isAbsolute, done);
        done := done + [component];
        if componentStart == 0 && p > 0 {
          assert component[0] == path[0];
        }
        componentStart := p + 1;
      } else {
        assert path[componentStart..p + 1] == path[componentStart..p] + [path[p]];
      }
      p := p + 1;
    }
    var last := path[componentStart..];
    assert last == path[componentStart..p];
    SplitFirst(last, "");
    if componentStart != |path| {
      components, isAbsolute := ProcessSlash(last, componentStart == 0, components, isAbsolute, done);
    } else {
      WalkStepOn(done, "");
    }
    assert done + [last] == Split(path);
  }

  lemma AllNamesNone()
    ensures AllNames([])
  {
  }

  // ----- canonicalPath -----

  /** The text of an absolute path; the root is "/". */
  function AbsoluteText(names: seq<string>): string {
    if names == [] then "/" else Slashed(names)
  }

  /** What canonicalPathImpl() computes from the path and the base's names. */
  function Canonicalized(path: string, base: seq<string>): seq<string> {
    var p := Walk(Split(path));
    if Canonical(path).1 then p.names else Drop(base, if p.ups > 0 then 1 else 0) + p.names
  }

  lemma {:induction false} AbsoluteWalk(names: seq<string>)
    requires AllNames(names)
    ensures Canonical(AbsoluteText(names)) == (names, true)
  {
    hide Walk, Split, AllNames, NoSlash;
    var text := AbsoluteText(names);
    NamesHaveNoSlash(names);
    NoSlashEmpty();
    if names == [] {
      SplitFirst("", "");
      assert "" + "/" + "" == "/";
      EmptyWalk();
    } else {
      SplitJoined(names);
      SlashedStarts(names);
      SplitFirst("", Slashed(names)[1..]);
      assert text == "" + "/" + Slashed(names)[1..];
      WalkOfNames(names);
      WalkEmptyFirst(names);
    }
  }

  lemma NamesHaveNoSlash(names: seq<string>)
    requires AllNames(names)
    ensures forall k :: 0 <= k < |names| ==> NoSlash(names[k])
  {
  }

  lemma NoSlashEmpty()
    ensures NoSlash("")
  {
  }

  lemma EmptyWalk()
    ensures Walk(["", ""]) == Place(0, []) && Split("") == [""]
    ensures [""] + [""] == ["", ""]
  {
    assert ["", ""][..1] == [""];
    assert [""][..0] == [];
  }

  lemma {:induction false} WalkEmptyFirst(segments: seq<string>)
    ensures Walk([""] + segments) == Walk(segments)
  {
    if segments == [] {
      assert [""] + segments == [""];
      assert [""][..0] == [];
    } else {
      WalkEmptyFirst(segments[..|segments| - 1]);
      assert ([""] + segments)[..|segments|] == [""] + segments[..|segments| - 1];
    }
  }

  /** canonicalPathImpl(), with the base given by its text. */
  method CanonicalPath(path: string, base: string, ghost baseNames: seq<string>) returns (names: seq<string>)
    requires AllNames(baseNames) && base == AbsoluteText(baseNames)
    ensures names == Canonicalized(path, baseNames)
  {
    hide Walk, Split, AllNames, IsName, AbsoluteText;
    var components, isAbsolute := CanonicalPathData(path);
    if isAbsolute {
      return components;
    }
    var baseIsAbsolute;
    names, baseIsAbsolute := CanonicalPathData(base);
    AbsoluteWalk(baseNames);
    ghost var walked := Walk(Split(path));
    SplitSlashed(path);
    WalkNames(Split(path));
    NamesAreNotDots(walked.names);
    var i: nat := 0;
    while i < |components|
      invariant i <= |components| && (i > 0 ==> walked.ups > 0 && i == 1)
      invariant names == if i == 0 then baseNames else Drop(baseNames, 1)
    {
      if components[i] == ".." {
        if names != [] {
          names := names[..|names| - 1];
        }
      } else {
        names := names + components[i..];
        break;
      }
      i := i + 1;
    }
  }

  lemma NamesAreNotDots(names: seq<string>)
    requires AllNames(names)
    ensures forall k :: 0 <= k < |names| ==> names[k] != ".."
  {
  }

  /** An absolute path is canonicalized to its step-by-step resolution at the root, whatever the base. */
  lemma AbsoluteIsResolved(path: string, base: seq<string>)
    requires path != "" && path[0] == '/'
    ensures Canonicalized(path, base) == Resolve([], Split(path))
  {
    ResolveIsWalk([], Split(path));
  }

  /** A relative one is canonicalized to its step-by-step resolution at the base exactly when it rises
      at most one level above its start, or the base is at most one level deep. */
  lemma RelativeIsResolvedExactly(path: string, base: seq<string>)
    requires path == "" || path[0] != '/'
    ensures Canonicalized(path, base) == Resolve(base, Split(path)) <==> !GoesAbove(Split(path), 2) || |base| <= 1
  {
    UpsMeansAbove(Split(path), 2);
    ResolveIsWalk(base, Split(path));
    var p := Walk(Split(path));
    var code, true_ := Drop(base, if p.ups > 0 then 1 else 0), Drop(base, p.ups);
    if p.ups > 1 && |base| > 1 {
      assert |code + p.names| != |true_ + p.names|;
    } else {
      assert code == true_;
    }
  }

  /** PathFuncs.cpp:181-194 expects several leading ".."; of "../../a" only one is left by then. */
  lemma SecondDotDotIsLost()
    ensures Split("../../a") == ["..", "..", "a"]
    ensures Canonicalized("../../a", ["x", "y"]) == ["x", "a"]
    ensures Resolve(["x", "y"], Split("../../a")) == ["a"]
  {
    hide Split, Walk, Resolve;
    assert "../../a"[0] != '/';
    SplitFirst("..", "../a");
    SplitFirst("..", "a");
    SplitFirst("a", "");
    assert "../../a" == ".." + "/" + "../a" && "../a" == ".." + "/" + "a";
    WalkNone();
    WalkStepOn([], "..");
    WalkStepOn([".."], "..");
    WalkStepOn(["..", ".."], "a");
    assert [".."] == [] + [".."] && ["..", ".."] == [".."] + [".."] && ["..", "..", "a"] == ["..", ".."] + ["a"];
    ResolveIsWalk(["x", "y"], ["..", "..", "a"]);
  }

  /** The result is a well formed absolute path, and canonicalizing it again changes nothing. */
  lemma CanonicalIsIdempotent(path: string, base: seq<string>, other: seq<string>)
    requires AllNames(base)
    ensures var names := Canonicalized(path, base);
      && AllNames(names)
      && Canonicalized(AbsoluteText(names), other) == names
  {
    hide Walk, Split, NoSlash;
    SplitSlashed(path);
    WalkNames(Split(path));
    AbsoluteWalk(Canonicalized(path, base));
    SlashedStarts(Canonicalized(path, base));
  }

  // ----- joinAndNormalize -----

  /** The text of a relative path; the empty path has none. */
  function RelativeText(names: seq<string>): string {
    SlashedStarts(names);
    if names == [] then "" else Slashed(names)[1..]
  }

  datatype Joined = Path(names: seq<string>) | NotPermitted | CrossDevice   // EPERM, EXDEV

  function Join(base: string, path: string): string {
    if base == "" then path else if path == "" then base else base + "/" + path
  }

  method JoinAndNormalize(base: string, path: string, ghost baseNames: seq<string>) returns (r: Joined)
    requires AllNames(baseNames) && base == RelativeText(baseNames)
    ensures r.NotPermitted? <==> path != "" && path[0] == '/'
    ensures r.CrossDevice? <==> !r.NotPermitted? && GoesAbove(baseNames + Split(path), 1)
    ensures r.Path? ==> r.names == Resolve(baseNames, Split(path)) && AllNames(r.names)
  {
    hide Walk, Split, Height, AllNames, IsName, NoSlash;
    if path != "" && path[0] == '/' {
      return NotPermitted;
    }
    var joined := if base == "" then path else if path == "" then base else base + "/" + path;
    var components, isAbsolute := CanonicalPathData(joined);
    JoinedWalk(baseNames, path);
    JoinedRelative(baseNames, path);
    ghost var p := Walk(Split(joined));
    SplitSlashed(joined);
    WalkNames(Split(joined));
    NamesAreNotDots(p.names);
    UpsMeansAbove(baseNames + Split(path), 1);
    if components != [] && components[0] == ".." {
      return CrossDevice;
    }
    ResolveFromNames(baseNames, Split(path));
    return Path(components);
  }

  /** Splitting the joined text walks the base and then the path. */
  lemma JoinedWalk(baseNames: seq<string>, path: string)
    requires AllNames(baseNames)
    ensures Walk(Split(Join(RelativeText(baseNames), path))) == Walk(baseNames + Split(path))
  {
    hide Walk, Split, NoSlash, AllNames;
    NamesHaveNoSlash(baseNames);
    SlashedStarts(baseNames);
    if baseNames == [] {
      assert baseNames + Split(path) == Split(path);
    } else {
      SplitJoined(baseNames);
      if path == "" {
        EmptyWalk();
        WalkStepOn(baseNames, "");
      } else {
        SplitConcat(RelativeText(baseNames), path);
      }
      TextNotEmpty(baseNames);
    }
  }

  lemma TextNotEmpty(names: seq<string>)
    requires AllNames(names) && names != []
    ensures RelativeText(names) != "" && RelativeText(names)[0] != '/'
  {
    SlashedFirst(names);
    assert IsName(names[0]);
  }

  lemma JoinedRelative(baseNames: seq<string>, path: string)
    requires AllNames(baseNames) && (path == "" || path[0] != '/')
    ensures var joined := Join(RelativeText(baseNames), path); joined == "" || joined[0] != '/'
  {
    if baseNames != [] {
      TextNotEmpty(baseNames);
    }
  }

  /** A walk that never goes above its start is the resolution from there. */
  lemma {:induction false} ResolveFromNames(names: seq<string>, segments: seq<string>)
    requires AllNames(names) && Walk(names + segments).ups == 0
    ensures Resolve(names, segments) == Walk(names + segments).names
  {
    hide AllNames;
    if segments == [] {
      assert names + segments == names;
      WalkOfNames(names);
    } else {
      var front := segments[..|segments| - 1];
      assert (names + segments)[..|names + segments| - 1] == names + front;
      ResolveFromNames(names, front);
    }
  }
}
