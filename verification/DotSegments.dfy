// Removing "." and ".." from a path: the worker's single pass over the split
// path against the string rewriting of section 5.2.4 of RFC 3986.
module DotSegments {

  // ----- the algorithm of section 5.2.4, on an input and an output buffer

  predicate StartsWith(s: string, prefix: string) {
    |prefix| <= |s| && s[..|prefix|] == prefix
  }

  // The output without its last segment and the "/" before it, if any.
  function DropLast(output: string): string {
    if output == "" then ""
    else if output[|output| - 1] == '/' then output[..|output| - 1]
    else DropLast(output[..|output| - 1])
  }

  // Where the segment at i ends: at the next "/" or at the end.
  function SegmentEnd(s: string, i: nat): (e: nat)
    requires i <= |s|
    ensures i <= e <= |s|
    decreases |s| - i
  {
    if i == |s| || s[i] == '/' then i else SegmentEnd(s, i + 1)
  }

  function RemoveDotSegments(input: string, output: string): string
    decreases |input|
  {
    if input == "" then output
    else if StartsWith(input, "../") then RemoveDotSegments(input[3..], output)
    else if StartsWith(input, "./") then RemoveDotSegments(input[2..], output)
    else if StartsWith(input, "/./") then RemoveDotSegments(input[2..], output)
    else if input == "/." then RemoveDotSegments("/", output)
    else if StartsWith(input, "/../") then RemoveDotSegments(input[3..], DropLast(output))
    else if input == "/.." then RemoveDotSegments("/", DropLast(output))
    else if input == "." || input == ".." then output
    else
      var e := SegmentEnd(input, 1);
      RemoveDotSegments(input[e..], output + input[..e])
  }

  // ----- the same on segments

  predicate NoSlash(seg: string) { forall i :: 0 <= i < |seg| ==> seg[i] != '/' }

  predicate NoSlashes(segs: seq<string>) { forall k :: 0 <= k < |segs| ==> NoSlash(segs[k]) }

  predicate IsDot(seg: string) { seg == "." || seg == ".." }

  // One segment on what the pass has kept: ".." takes the last one away, but
  // never leaves a path that had a first segment without any.
  function Kept(s: seq<string>, n: string): seq<string> {
    if n == ".." then (if s == [] then [] else if |s| == 1 then [""] else s[..|s| - 1])
    else if n == "." then s
    else s + [n]
  }

  // What is kept of segs from k on, after s: a dot at the end leaves an empty
  // last segment.
  function Resolve(s: seq<string>, segs: seq<string>, k: nat): seq<string>
    requires k <= |segs|
    decreases |segs| - k
  {
    if k == |segs| then s
    else
      var s' := Kept(s, segs[k]);
      if IsDot(segs[k]) && k + 1 == |segs| then s' + [""] else Resolve(s', segs, k + 1)
  }

  // The segments from k on, each with the "/" before it.
  function SlashedFrom(segs: seq<string>, k: nat): string
    requires k <= |segs|
    decreases |segs| - k
  {
    if k == |segs| then "" else "/" + segs[k] + SlashedFrom(segs, k + 1)
  }

  // The end of the input, or a "/".
  predicate AtBreak(rest: string) { rest == "" || rest[0] == '/' }

  lemma FromAtBreak(segs: seq<string>, k: nat)
    requires k <= |segs|
    ensures AtBreak(SlashedFrom(segs, k))
    ensures SlashedFrom(segs, k) == "" <==> k == |segs|
  {
  }

  // ----- one rewriting step on "/" + segment + rest

  lemma StepDot(rest: string, output: string)
    requires AtBreak(rest)
    ensures RemoveDotSegments("/." + rest, output) ==
            if rest == "" then output + "/" else RemoveDotSegments(rest, output)
  {
    var input := "/." + rest;
    if rest == "" {
      assert input == "/.";
      LoneSlash(output);
    } else {
      assert input[..3] == "/./" && input[2..] == rest;
      assert input[0] == '/';
    }
  }

  lemma LoneSlash(output: string)
    ensures RemoveDotSegments("/", output) == output + "/"
  {
    assert "/"[..1] == "/" && "/"[1..] == "";
  }

  lemma StepUp(rest: string, output: string)
    requires AtBreak(rest)
    ensures RemoveDotSegments("/.." + rest, output) ==
            if rest == "" then DropLast(output) + "/" else RemoveDotSegments(rest, DropLast(output))
  {
    var input := "/.." + rest;
    assert input[0] == '/' && input[1] == '.' && input[2] == '.';
    assert !StartsWith(input, "/./") && input != "/." && !StartsWith(input, "../") && !StartsWith(input, "./");
    if rest == "" {
      assert input == "/..";
      LoneSlash(DropLast(output));
    } else {
      assert input[..4] == "/../" && input[3..] == rest;
    }
  }

  lemma {:induction false} PlainEnd(before: string, seg: string, rest: string, i: nat)
    requires NoSlash(seg) && AtBreak(rest) && i <= |seg|
    ensures SegmentEnd(before + seg + rest, |before| + i) == |before| + |seg|
    decreases |seg| - i
  {
    var s := before + seg + rest;
    if i < |seg| {
      assert s[|before| + i] == seg[i];
      PlainEnd(before, seg, rest, i + 1);
    } else if rest != "" {
      assert s[|before| + i] == rest[0];
    }
  }

  lemma StepPlain(seg: string, rest: string, output: string)
    requires NoSlash(seg) && !IsDot(seg) && AtBreak(rest)
    ensures RemoveDotSegments("/" + seg + rest, output) == RemoveDotSegments(rest, output + "/" + seg)
  {
    var input := "/" + seg + rest;
    assert input[0] == '/';
    NotDotPrefix(seg, rest, ".");
    NotDotPrefix(seg, rest, "..");
    PlainEnd("/", seg, rest, 0);
    assert input[..1 + |seg|] == "/" + seg && input[1 + |seg|..] == rest;
    assert output + ("/" + seg) == output + "/" + seg;
  }

  lemma NotDotPrefix(seg: string, rest: string, dots: string)
    requires NoSlash(seg) && AtBreak(rest) && NoSlash(dots) && seg != dots
    ensures !StartsWith("/" + seg + rest, "/" + dots + "/") && "/" + seg + rest != "/" + dots
  {
    var input := "/" + seg + rest;
    var prefix := "/" + dots + "/";
    if |seg| < |dots| {
      if |input| > 1 + |seg| {
        assert input[1 + |seg|] == rest[0] && prefix[1 + |seg|] == dots[|seg|];
        assert ("/" + dots)[1 + |seg|] == dots[|seg|];
      }
    } else if |seg| > |dots| {
      assert input[1 + |dots|] == seg[|dots|] && prefix[1 + |dots|] == '/';
      assert |input| > |"/" + dots|;
    } else {
      var j :| 0 <= j < |seg| && seg[j] != dots[j];
      assert input[1 + j] == seg[j] && prefix[1 + j] == dots[j] && ("/" + dots)[1 + j] == dots[j];
    }
  }

  lemma {:induction false} DropLastSegment(before: string, seg: string)
    requires NoSlash(seg)
    ensures DropLast(before + "/" + seg) == before
  {
    var s := before + "/" + seg;
    if seg == "" {
      assert s[|s| - 1] == '/' && s[..|s| - 1] == before;
    } else {
      var shorter := seg[..|seg| - 1];
      DropLastSegment(before, shorter);
      assert s[|s| - 1] == seg[|seg| - 1] && s[..|s| - 1] == before + "/" + shorter;
    }
  }

  lemma {:induction false} DropOnly(seg: string)
    requires NoSlash(seg)
    ensures DropLast(seg) == ""
  {
    if seg != "" {
      DropOnly(seg[..|seg| - 1]);
    }
  }

  // ----- splitting at "/" and joining again

  function Split(s: string): (segs: seq<string>)
    ensures |segs| >= 1
  {
    if s == "" then [""]
    else
      var rest := Split(s[1..]);
      if s[0] == '/' then [""] + rest else [[s[0]] + rest[0]] + rest[1..]
  }

  function Join(segs: seq<string>): string
    requires segs != []
  {
    segs[0] + SlashedFrom(segs, 1)
  }

  lemma {:induction false} SplitSegments(s: string)
    ensures NoSlashes(Split(s))
  {
    if s != "" {
      SplitSegments(s[1..]);
    }
  }

  lemma JoinCons(first: string, rest: seq<string>)
    ensures Join([first] + rest) == first + SlashedFrom(rest, 0)
  {
    ShiftFrom([first], rest, 0);
  }

  lemma {:induction false} JoinSplit(s: string)
    ensures Join(Split(s)) == s
  {
    if s != "" {
      var rest := Split(s[1..]);
      JoinSplit(s[1..]);
      assert rest == [rest[0]] + rest[1..];
      JoinCons(rest[0], rest[1..]);
      if s[0] == '/' {
        JoinCons("", rest);
        assert SlashedFrom(rest, 0) == "/" + rest[0] + SlashedFrom(rest, 1);
        ShiftFrom([rest[0]], rest[1..], 0);
        hide SlashedFrom, Join;
        assert "/" + s[1..] == s;
      } else {
        hide SlashedFrom, Join;
        JoinCons([s[0]] + rest[0], rest[1..]);
        assert [s[0]] + s[1..] == s;
      }
    }
  }

  lemma {:induction false} ShiftFrom(first: seq<string>, segs: seq<string>, k: nat)
    requires k <= |segs|
    ensures SlashedFrom(first + segs, |first| + k) == SlashedFrom(segs, k)
    decreases |segs| - k
  {
    if k < |segs| {
      ShiftFrom(first, segs, k + 1);
    }
  }

  // Splitting undoes joining.
  lemma {:induction false} SplitJoin(segs: seq<string>)
    requires segs != [] && NoSlashes(segs)
    ensures Split(Join(segs)) == segs
    decreases |segs|, |segs[0]|
  {
    var first, rest := segs[0], segs[1..];
    assert segs == [first] + rest;
    JoinCons(first, rest);
    if first != "" {
      SplitJoin([first[1..]] + rest);
      SplitLetter(first, rest);
    } else if rest != [] {
      SplitJoin(rest);
      SplitSlash(rest);
      EmptyFirst(SlashedFrom(rest, 0));
    }
  }

  lemma EmptyFirst(s: string)
    ensures "" + s == s
  {
  }

  lemma SplitSlash(rest: seq<string>)
    requires rest != [] && Split(Join(rest)) == rest
    ensures Split(SlashedFrom(rest, 0)) == [""] + rest
  {
    assert SlashedFrom(rest, 0) == "/" + rest[0] + SlashedFrom(rest, 1);
    hide SlashedFrom;
    assert SlashedFrom(rest, 0) == "/" + Join(rest);
    hide Join;
    SplitAfterSlash(Join(rest));
  }

  lemma SplitAfterSlash(s: string)
    ensures Split("/" + s) == [""] + Split(s)
  {
    assert ("/" + s)[1..] == s;
  }

  lemma SplitLetter(first: string, rest: seq<string>)
    requires first != "" && NoSlash(first)
    requires Split(Join([first[1..]] + rest)) == [first[1..]] + rest
    ensures Split(Join([first] + rest)) == [first] + rest
  {
    JoinCons(first, rest);
    JoinCons(first[1..], rest);
    hide SlashedFrom, Join;
    var s := first + SlashedFrom(rest, 0);
    assert s[1..] == first[1..] + SlashedFrom(rest, 0);
    assert [first[0]] + first[1..] == first;
    assert ([first[1..]] + rest)[1..] == rest;
  }

  // ----- the algorithm on a split path

  lemma {:induction false} SlashedSnoc(segs: seq<string>, x: string, k: nat)
    requires k <= |segs|
    ensures SlashedFrom(segs + [x], k) == SlashedFrom(segs, k) + "/" + x
    decreases |segs| - k
  {
    if k == |segs| {
      assert SlashedFrom(segs + [x], k + 1) == "";
      assert "/" + x + "" == "" + "/" + x;
    } else {
      SlashedSnoc(segs, x, k + 1);
      var a, b := segs[k], SlashedFrom(segs, k + 1);
      assert "/" + a + (b + "/" + x) == ("/" + a + b) + "/" + x;
    }
  }

  lemma JoinSnoc(s: seq<string>, x: string)
    requires s != []
    ensures Join(s + [x]) == Join(s) + "/" + x
  {
    SlashedSnoc(s, x, 1);
    hide SlashedFrom;
    assert s[0] + (SlashedFrom(s, 1) + "/" + x) == s[0] + SlashedFrom(s, 1) + "/" + x;
  }

  lemma JoinOne(x: string)
    ensures Join([x]) == x
  {
    assert x + "" == x;
  }

  // Taking the last segment away, on text and on segments.
  lemma KeptDrops(s: seq<string>)
    requires s != [] && NoSlashes(s)
    ensures DropLast(Join(s)) == Join(Kept(s, ".."))
  {
    var last := |s| - 1;
    if last == 0 {
      JoinOne(s[0]);
      JoinOne("");
      assert s == [s[0]];
      DropOnly(s[0]);
    } else {
      assert s == s[..last] + [s[last]];
      JoinSnoc(s[..last], s[last]);
      DropLastSegment(Join(s[..last]), s[last]);
    }
  }

  lemma HeadIs(segs: seq<string>, k: nat, head: string)
    requires k < |segs| && head == "/" + segs[k]
    ensures SlashedFrom(segs, k) == head + SlashedFrom(segs, k + 1)
  {
  }

  lemma AddNothing(s: string)
    ensures s + "/" + "" == s + "/"
  {
  }

  // One step after the first segment: the text left is "/" and segment, again
  // and again, and the output is what was kept.
  lemma NextRemoved(s: seq<string>, segs: seq<string>, k: nat)
    requires s != [] && NoSlashes(s) && NoSlashes(segs) && k < |segs|
    ensures var s' := Kept(s, segs[k]);
            && s' != [] && NoSlashes(s')
            && RemoveDotSegments(SlashedFrom(segs, k), Join(s)) ==
                 if IsDot(segs[k]) && k + 1 == |segs| then Join(s' + [""])
                 else RemoveDotSegments(SlashedFrom(segs, k + 1), Join(s'))
  {
    var rest := SlashedFrom(segs, k + 1);
    var s' := Kept(s, segs[k]);
    FromAtBreak(segs, k + 1);
    HeadIs(segs, k, "/" + segs[k]);
    hide RemoveDotSegments, DropLast, Join, SlashedFrom;
    if segs[k] == "." {
      StepDot(rest, Join(s));
      assert "/" + segs[k] == "/.";
      JoinSnoc(s', "");
      AddNothing(Join(s'));
    } else if segs[k] == ".." {
      StepUp(rest, Join(s));
      assert "/" + segs[k] == "/..";
      KeptDrops(s);
      JoinSnoc(s', "");
      AddNothing(Join(s'));
    } else {
      StepPlain(segs[k], rest, Join(s));
      JoinSnoc(s, segs[k]);
    }
  }

  lemma {:induction false} RemovesAfterFirst(s: seq<string>, segs: seq<string>, k: nat)
    requires s != [] && NoSlashes(s) && NoSlashes(segs) && k <= |segs|
    ensures Resolve(s, segs, k) != []
    ensures RemoveDotSegments(SlashedFrom(segs, k), Join(s)) == Join(Resolve(s, segs, k))
    decreases |segs| - k
  {
    if k < |segs| {
      NextRemoved(s, segs, k);
      hide RemoveDotSegments, SlashedFrom, Join, Kept, NoSlashes;
      if !(IsDot(segs[k]) && k + 1 == |segs|) {
        RemovesAfterFirst(Kept(s, segs[k]), segs, k + 1);
      }
    }
  }

  // The path from segment k on, without a "/" in front.
  function PathFrom(segs: seq<string>, k: nat): string
    requires k < |segs|
  {
    segs[k] + SlashedFrom(segs, k + 1)
  }

  // Steps at the start of a path that does not begin with "/".
  lemma LeadDot(segs: seq<string>, k: nat)
    requires k < |segs| && segs[k] == "."
    ensures RemoveDotSegments(PathFrom(segs, k), "") ==
            if k + 1 == |segs| then "" else RemoveDotSegments(PathFrom(segs, k + 1), "")
  {
    var input := PathFrom(segs, k);
    if k + 1 == |segs| {
      assert input == ".";
    } else {
      assert SlashedFrom(segs, k + 1) == "/" + PathFrom(segs, k + 1) by { SlashThen(segs, k + 1); }
      hide SlashedFrom;
      assert input == "./" + PathFrom(segs, k + 1);
      assert input[..2] == "./" && input[2..] == PathFrom(segs, k + 1) && input[1] == '/';
    }
  }

  lemma SlashThen(segs: seq<string>, k: nat)
    requires k < |segs|
    ensures SlashedFrom(segs, k) == "/" + PathFrom(segs, k)
  {
    var a, b := segs[k], SlashedFrom(segs, k + 1);
    assert "/" + a + b == "/" + (a + b);
  }

  lemma LeadUp(segs: seq<string>, k: nat)
    requires k < |segs| && segs[k] == ".."
    ensures RemoveDotSegments(PathFrom(segs, k), "") ==
            if k + 1 == |segs| then "" else RemoveDotSegments(PathFrom(segs, k + 1), "")
  {
    var input := PathFrom(segs, k);
    if k + 1 == |segs| {
      assert input == "..";
      assert input[0] == '.' && input[1] == '.';
    } else {
      assert SlashedFrom(segs, k + 1) == "/" + PathFrom(segs, k + 1) by { SlashThen(segs, k + 1); }
      hide SlashedFrom;
      assert input == "../" + PathFrom(segs, k + 1);
      assert input[..3] == "../" && input[3..] == PathFrom(segs, k + 1);
    }
  }

  lemma LeadPlain(segs: seq<string>, k: nat)
    requires k < |segs| && !IsDot(segs[k]) && NoSlash(segs[k])
    ensures RemoveDotSegments(PathFrom(segs, k), "") == RemoveDotSegments(SlashedFrom(segs, k + 1), segs[k])
  {
    var seg, rest := segs[k], SlashedFrom(segs, k + 1);
    FromAtBreak(segs, k + 1);
    hide SlashedFrom;
    if seg == "" {
      assert PathFrom(segs, k) == rest;
    } else {
      LeadSegment(seg, rest);
    }
  }

  lemma LeadSegment(seg: string, rest: string)
    requires seg != "" && NoSlash(seg) && !IsDot(seg) && AtBreak(rest)
    ensures RemoveDotSegments(seg + rest, "") == RemoveDotSegments(rest, seg)
  {
    hide RemoveDotSegments, SegmentEnd, AtBreak;
    var input := seg + rest;
    assert input[0] == seg[0] != '/';
    NotLead(seg, rest, ".");
    NotLead(seg, rest, "..");
    assert !StartsWith(input, "/./") && !StartsWith(input, "/../");
    hide StartsWith, NoSlash, IsDot;
    PlainEnd("", seg, rest, 1);
    assert "" + seg + rest == input;
    TakeSegment(seg, rest);
  }

  // The last case of the algorithm.
  lemma TakeSegment(seg: string, rest: string)
    requires seg != "" && SegmentEnd(seg + rest, 1) == |seg|
    requires var input := seg + rest;
             && !StartsWith(input, "../") && !StartsWith(input, "./") && !StartsWith(input, "/./") && input != "/."
             && !StartsWith(input, "/../") && input != "/.." && input != "." && input != ".."
    ensures RemoveDotSegments(seg + rest, "") == RemoveDotSegments(rest, seg)
  {
    var input := seg + rest;
    assert input[..|seg|] == seg && input[|seg|..] == rest && "" + seg == seg;
    hide StartsWith, SegmentEnd;
  }

  lemma PrefixAfterSlash(s: string, prefix: string)
    requires StartsWith(s, prefix)
    ensures StartsWith("/" + s, "/" + prefix)
  {
    assert ("/" + s)[..|prefix| + 1] == "/" + s[..|prefix|];
  }

  lemma NotLead(seg: string, rest: string, dots: string)
    requires NoSlash(seg) && AtBreak(rest) && NoSlash(dots) && seg != dots
    ensures !StartsWith(seg + rest, dots + "/") && seg + rest != dots
  {
    NotDotPrefix(seg, rest, dots);
    var input := seg + rest;
    assert "/" + seg + rest == "/" + input && "/" + dots + "/" == "/" + (dots + "/");
    hide StartsWith;
    if StartsWith(input, dots + "/") {
      PrefixAfterSlash(input, dots + "/");
    }
  }

  // The algorithm on any path is one pass over its segments.
  lemma {:induction false} RemovesOnSegments(segs: seq<string>, k: nat)
    requires k < |segs| && NoSlashes(segs)
    ensures Resolve([], segs, k) != []
    ensures RemoveDotSegments(PathFrom(segs, k), "") == Join(Resolve([], segs, k))
    decreases |segs| - k
  {
    JoinOne("");
    if !IsDot(segs[k]) {
      LeadPlain(segs, k);
      JoinOne(segs[k]);
      RemovesAfterFirst([segs[k]], segs, k + 1);
      assert Kept([], segs[k]) == [segs[k]];
      hide RemoveDotSegments, SlashedFrom, Join, PathFrom;
    } else {
      if segs[k] == "." { LeadDot(segs, k); } else { LeadUp(segs, k); }
      hide RemoveDotSegments, SlashedFrom, Join, PathFrom;
      assert Kept([], segs[k]) == [];
      if k + 1 < |segs| {
        RemovesOnSegments(segs, k + 1);
      } else {
        assert Resolve([], segs, k) == [""];
      }
    }
  }

  lemma RemovesOnPath(a: string)
    ensures Resolve([], Split(a), 0) != []
    ensures RemoveDotSegments(a, "") == Join(Resolve([], Split(a), 0))
  {
    SplitSegments(a);
    JoinSplit(a);
    RemovesOnSegments(Split(a), 0);
    assert PathFrom(Split(a), 0) == Join(Split(a));
  }

  // ----- what comes out

  predicate NoDots(segs: seq<string>) { forall k :: 0 <= k < |segs| ==> !IsDot(segs[k]) }

  lemma {:induction false} ResolveHasNoDots(s: seq<string>, segs: seq<string>, k: nat)
    requires k <= |segs| && NoDots(s) && NoSlashes(s) && NoSlashes(segs)
    ensures NoDots(Resolve(s, segs, k)) && NoSlashes(Resolve(s, segs, k))
    decreases |segs| - k
  {
    if k < |segs| {
      ResolveHasNoDots(Kept(s, segs[k]), segs, k + 1);
    }
  }

  lemma {:induction false} ResolveWithoutDots(s: seq<string>, segs: seq<string>, k: nat)
    requires k <= |segs| && NoDots(segs)
    ensures Resolve(s, segs, k) == s + segs[k..]
    decreases |segs| - k
  {
    if k < |segs| {
      assert !IsDot(segs[k]);
      ResolveWithoutDots(s + [segs[k]], segs, k + 1);
    }
  }

  // No "." and no ".." segment is left.
  lemma NoDotSegmentLeft(a: string)
    ensures NoDots(Split(RemoveDotSegments(a, "")))
  {
    SplitSegments(a);
    RemovesOnPath(a);
    ResolveHasNoDots([], Split(a), 0);
    hide RemoveDotSegments, Resolve, Split;
    SplitJoin(Resolve([], Split(a), 0));
  }

  // A path without dot segments is left as it is.
  lemma NothingToRemove(a: string)
    requires NoDots(Split(a))
    ensures RemoveDotSegments(a, "") == a
  {
    RemovesOnPath(a);
    ResolveWithoutDots([], Split(a), 0);
    JoinSplit(a);
    assert [] + Split(a)[0..] == Split(a);
    hide RemoveDotSegments, Resolve, Split;
  }

  // Removing twice is removing once.
  lemma RemovalIsIdempotent(a: string)
    ensures RemoveDotSegments(RemoveDotSegments(a, ""), "") == RemoveDotSegments(a, "")
  {
    NoDotSegmentLeft(a);
    hide RemoveDotSegments;
    NothingToRemove(RemoveDotSegments(a, ""));
  }

  // ----- dt

  predicate DotAfterSlash(a: string, i: int) { 0 <= i < |a| - 1 && a[i] == '/' && a[i + 1] == '.' }

  // rH: a "." at the start of the path or after a "/"
  predicate MayHaveDots(a: string) {
    (a != "" && a[0] == '.') || exists i :: 0 <= i < |a| - 1 && DotAfterSlash(a, i)
  }

  // Where a later segment starts in the path.
  lemma {:induction false} SegmentInPath(segs: seq<string>, k: nat, j: nat) returns (i: nat)
    requires j <= k < |segs|
    ensures i < |SlashedFrom(segs, j)| && SlashedFrom(segs, j)[i] == '/'
    ensures segs[k] != "" ==> i + 1 < |SlashedFrom(segs, j)| && SlashedFrom(segs, j)[i + 1] == segs[k][0]
    decreases k - j
  {
    if j == k {
      i := 0;
    } else {
      i := SegmentInPath(segs, k, j + 1);
      i := i + 1 + |segs[j]|;
    }
  }

  // The quick check never misses a dot segment.
  lemma PreCheckSound(a: string)
    requires !MayHaveDots(a)
    ensures NoDots(Split(a)) && RemoveDotSegments(a, "") == a
  {
    JoinSplit(a);
    var segs := Split(a);
    forall k | 0 <= k < |segs|
      ensures !IsDot(segs[k])
    {
      if k == 0 {
        assert segs[0] != "" ==> a[0] == segs[0][0];
      } else {
        var i := SegmentInPath(segs, k, 1);
        assert !DotAfterSlash(a, |segs[0]| + i);
      }
    }
    hide RemoveDotSegments, Split;
    NothingToRemove(a);
  }

  // The path without dots, in one pass over its segments.
  method Normalize(a: string) returns (r: string)
    ensures r == RemoveDotSegments(a, "")
  {
    RemovesOnPath(a);
    if !MayHaveDots(a) {
      PreCheckSound(a);
      return a;
    }
    hide RemoveDotSegments, MayHaveDots, Join, Split;
    var s: seq<string> := [];
    var segs := Split(a);
    var p := false;
    for o := 0 to |segs|
      invariant Resolve([], segs, 0) == if o == |segs| && p then s + [""] else Resolve(s, segs, o)
    {
      var n := segs[o];
      ghost var before := s;
      if n == ".." {
        if |s| != 0 {
          s := s[..|s| - 1];
          if |s| == 0 {
            s := s + [""];
          }
        }
        p := true;
      } else {
        p := "." == n;
        if !p {
          s := s + [n];
        }
      }
      assert s == Kept(before, n) && p == IsDot(n);
    }
    if p {
      s := s + [""];
    }
    r := Join(s);
  }
}
