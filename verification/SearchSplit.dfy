// Splitting text into the parts that match a query and the parts between them.
module SearchSplit {
  import opened Wrappers

  datatype Segment = Segment(text: string, hit: bool)

  // The white space that trim() removes.
  predicate IsSpace(c: char) {
    || '\t' <= c <= '\r' || c == ' ' || c == '\U{A0}' || c == '\U{1680}' || '\U{2000}' <= c <= '\U{200A}'
    || c == '\U{2028}' || c == '\U{2029}' || c == '\U{202F}' || c == '\U{205F}' || c == '\U{3000}' || c == '\U{FEFF}'
  }

  function Trim(s: string): string {
    if s == "" then ""
    else if IsSpace(s[0]) then Trim(s[1..])
    else if IsSpace(s[|s| - 1]) then Trim(s[..|s| - 1])
    else s
  }

  predicate AllSpace(s: string) { forall k :: 0 <= k < |s| ==> IsSpace(s[k]) }

  // White space at the two ends, and none next to it.
  predicate IsTrimmed(s: string, i: nat, j: nat) {
    && i <= j <= |s| && AllSpace(s[..i]) && AllSpace(s[j..])
    && (i < j ==> !IsSpace(s[i]) && !IsSpace(s[j - 1]))
  }

  lemma TrimmedFront(s: string, i: nat, j: nat)
    requires s != "" && IsSpace(s[0]) && IsTrimmed(s[1..], i, j)
    ensures IsTrimmed(s, i + 1, j + 1) && s[1..][i..j] == s[i + 1..j + 1]
  {
    hide IsSpace;
    var tail := s[1..];
    assert s[..i + 1] == [s[0]] + tail[..i];
    assert s[j + 1..] == tail[j..];
    assert tail[i..j] == s[i + 1..j + 1];
    if i < j {
      assert tail[i] == s[i + 1] && tail[j - 1] == s[j];
    }
  }

  lemma TrimmedBack(s: string, i: nat, j: nat)
    requires s != "" && IsSpace(s[|s| - 1]) && IsTrimmed(s[..|s| - 1], i, j)
    ensures IsTrimmed(s, i, j) && s[..|s| - 1][i..j] == s[i..j]
  {
    hide IsSpace;
    var front := s[..|s| - 1];
    assert s[..i] == front[..i];
    assert s[j..] == front[j..] + [s[|s| - 1]];
    assert front[i..j] == s[i..j];
  }

  // What is left is the text between the white space at its two ends.
  lemma {:induction false} TrimMeans(s: string) returns (i: nat, j: nat)
    ensures IsTrimmed(s, i, j) && Trim(s) == s[i..j]
  {
    hide IsSpace;
    i, j := 0, |s|;
    if s != "" && IsSpace(s[0]) {
      i, j := TrimMeans(s[1..]);
      TrimmedFront(s, i, j);
      i, j := i + 1, j + 1;
    } else if s != "" && IsSpace(s[|s| - 1]) {
      i, j := TrimMeans(s[..|s| - 1]);
      TrimmedBack(s, i, j);
    }
  }

  predicate OccursAt(h: string, needle: string, at: int) {
    0 <= at && at + |needle| <= |h| && h[at..at + |needle|] == needle
  }

  ghost predicate Occurs(h: string, needle: string) {
    exists at :: OccursAt(h, needle, at)
  }

  // h.indexOf(needle, i)
  function IndexOf(h: string, needle: string, i: nat): (at: int)
    ensures at == -1 || (at >= i && OccursAt(h, needle, at))
    ensures forall k :: i <= k && (at == -1 || k < at) ==> !OccursAt(h, needle, k)
    decreases |h| + 1 - i
  {
    if i + |needle| > |h| then -1
    else if OccursAt(h, needle, i) then i
    else IndexOf(h, needle, i + 1)
  }

  // s.slice(i, j), which stops at the end of s
  function Slice(s: string, i: nat, j: nat): string
    requires i <= j
  {
    if i >= |s| then "" else if j >= |s| then s[i..] else s[i..j]
  }

  function Text(segments: seq<Segment>): string {
    if segments == [] then "" else Text(segments[..|segments| - 1]) + segments[|segments| - 1].text
  }

  lemma TextAdd(segments: seq<Segment>, s: Segment)
    ensures Text(segments + [s]) == Text(segments) + s.text
  {
    assert (segments + [s])[..|segments|] == segments;
  }

  ghost predicate AnyHit(segments: seq<Segment>) { exists k :: 0 <= k < |segments| && segments[k].hit }

  // Lowercasing is a parameter: all that is known of it is what it empties.
  ghost predicate IsLowercasing(lower: string -> string) {
    lower("") == "" && forall s :: s != "" ==> lower(s) != ""
  }

  // On this text it keeps every character in its place: as long as the text,
  // and lowercasing a part is taking that part of the lowercased text.
  ghost predicate IsAligned(lower: string -> string, value: string) {
    && |lower(value)| == |value|
    && (forall i, j :: 0 <= i <= j <= |value| ==> lower(value[i..j]) == lower(value)[i..j])
  }

  // matchesQuery
  ghost predicate Matches(haystack: string, query: string, lower: string -> string) {
    lower(Trim(query)) != "" && Occurs(lower(haystack), lower(Trim(query)))
  }

  method MatchesQuery(haystack: string, query: string, lower: string -> string) returns (found: bool)
    ensures found <==> Matches(haystack, query, lower)
  {
    var q := lower(Trim(query));
    found := q != "" && IndexOf(lower(haystack), q, 0) != -1;
  }

  // What a segment says: a hit is the needle ignoring case, and no other part
  // has the needle in it.
  ghost predicate Truthful(s: Segment, needle: string, lower: string -> string) {
    if s.hit then lower(s.text) == needle else !Occurs(lower(s.text), needle)
  }

  lemma PartTruthful(value: string, lower: string -> string, needle: string, i: nat, j: nat)
    requires i <= j <= |value| && j <= |lower(value)| && lower(value[i..j]) == lower(value)[i..j]
    requires forall k :: i <= k < j ==> !OccursAt(lower(value), needle, k)
    requires needle != ""
    ensures Truthful(Segment(value[i..j], false), needle, lower)
  {
    var h := lower(value);
    forall at
      ensures !OccursAt(h[i..j], needle, at)
    {
      if OccursAt(h[i..j], needle, at) {
        assert h[i..j][at..at + |needle|] == h[i + at..i + at + |needle|];
        assert OccursAt(h, needle, i + at);
      }
    }
  }

  lemma HitTruthful(value: string, lower: string -> string, needle: string, at: nat)
    requires IsAligned(lower, value) && OccursAt(lower(value), needle, at)
    ensures at + |needle| <= |value|
    ensures Truthful(Segment(value[at..at + |needle|], true), needle, lower)
  {
  }

  ghost predicate AllTruthful(out: seq<Segment>, needle: string, lower: string -> string) {
    forall k :: 0 <= k < |out| ==> Truthful(out[k], needle, lower)
  }

  // The segments for the first i characters.
  ghost predicate SoFar(out: seq<Segment>, value: string, needle: string, lower: string -> string, i: nat) {
    && Text(out) == Slice(value, 0, i)
    && (i == 0 ==> out == [])
    && (i > 0 ==> AnyHit(out) && Occurs(lower(value), needle))
    && (IsAligned(lower, value) ==> i <= |value| && AllTruthful(out, needle, lower))
  }

  lemma Slices(s: string, i: nat, j: nat)
    requires i <= j
    ensures Slice(s, 0, i) + Slice(s, i, j) == Slice(s, 0, j)
    ensures j <= |s| ==> Slice(s, i, j) == s[i..j]
  {
    if i < |s| {
      assert s[..i] + s[i..] == s;
      if j < |s| {
        assert s[0..i] + s[i..j] == s[0..j];
      }
    }
  }

  lemma LaterHit(out: seq<Segment>, s: Segment)
    ensures AnyHit(out + [s]) <==> AnyHit(out) || s.hit
  {
    var all := out + [s];
    assert all[|out|] == s;
    assert forall k :: 0 <= k < |out| ==> all[k] == out[k];
  }

  // The part before the next match.
  function Gap(value: string, i: nat, at: nat): seq<Segment>
    requires i <= at
  {
    if at > i then [Segment(Slice(value, i, at), false)] else []
  }

  lemma GapText(out: seq<Segment>, value: string, i: nat, at: nat)
    requires Text(out) == Slice(value, 0, i) && i <= at
    ensures Text(out + Gap(value, i, at)) == Slice(value, 0, at)
  {
    Slices(value, i, at);
    if at > i {
      TextAdd(out, Segment(Slice(value, i, at), false));
    } else {
      assert out + [] == out;
    }
  }

  lemma GapTruthful(out: seq<Segment>, value: string, needle: string, lower: string -> string, i: nat, at: nat)
    requires IsAligned(lower, value) && AllTruthful(out, needle, lower) && i <= at <= |value| && needle != ""
    requires forall k :: i <= k < at ==> !OccursAt(lower(value), needle, k)
    ensures AllTruthful(out + Gap(value, i, at), needle, lower)
  {
    PartTruthful(value, lower, needle, i, at);
    Slices(value, i, at);
    hide Truthful, IsAligned, OccursAt;
  }

  lemma MatchText(out: seq<Segment>, value: string, i: nat, at: nat, end: nat)
    requires Text(out) == Slice(value, 0, i) && i <= at <= end
    ensures Text(out + Gap(value, i, at) + [Segment(Slice(value, at, end), true)]) == Slice(value, 0, end)
  {
    GapText(out, value, i, at);
    TextAdd(out + Gap(value, i, at), Segment(Slice(value, at, end), true));
    Slices(value, at, end);
    hide Text, Slice, Gap;
  }

  lemma MatchTruthful(out: seq<Segment>, value: string, needle: string, lower: string -> string, i: nat, at: nat)
    requires IsAligned(lower, value) && AllTruthful(out, needle, lower) && i <= at && needle != ""
    requires OccursAt(lower(value), needle, at)
    requires forall k :: i <= k < at ==> !OccursAt(lower(value), needle, k)
    ensures at + |needle| <= |value|
    ensures AllTruthful(out + Gap(value, i, at) + [Segment(Slice(value, at, at + |needle|), true)], needle, lower)
  {
    HitTruthful(value, lower, needle, at);
    GapTruthful(out, value, needle, lower, i, at);
    Slices(value, at, at + |needle|);
    hide Truthful, IsAligned, OccursAt, Gap, Slice;
  }

  lemma NextMatch(out: seq<Segment>, value: string, needle: string, lower: string -> string, i: nat, at: nat)
    requires SoFar(out, value, needle, lower, i) && needle != "" && i <= at
    requires OccursAt(lower(value), needle, at)
    requires forall k :: i <= k < at ==> !OccursAt(lower(value), needle, k)
    ensures var hit := Segment(Slice(value, at, at + |needle|), true);
            SoFar(out + Gap(value, i, at) + [hit], value, needle, lower, at + |needle|)
  {
    hide IsAligned, OccursAt, Occurs, AllTruthful, Text, Slice, Gap, AnyHit;
    MatchText(out, value, i, at, at + |needle|);
    LaterHit(out + Gap(value, i, at), Segment(Slice(value, at, at + |needle|), true));
    OccursHere(lower(value), needle, at);
    if IsAligned(lower, value) {
      MatchTruthful(out, value, needle, lower, i, at);
    }
  }

  lemma OccursHere(h: string, needle: string, at: nat)
    requires OccursAt(h, needle, at)
    ensures Occurs(h, needle)
  {
  }

  // The rest has no match in it.
  lemma LastPart(out: seq<Segment>, value: string, needle: string, lower: string -> string, i: nat)
    requires SoFar(out, value, needle, lower, i) && needle != "" && i < |value|
    requires forall k :: i <= k ==> !OccursAt(lower(value), needle, k)
    ensures var all := out + [Segment(value[i..], false)];
            && Text(all) == value
            && (AnyHit(all) <==> Occurs(lower(value), needle))
            && (IsAligned(lower, value) ==> AllTruthful(all, needle, lower))
  {
    GapText(out, value, i, |value|);
    LaterHit(out, Segment(value[i..], false));
    assert value[i..] == value[i..|value|];
    if IsAligned(lower, value) {
      GapTruthful(out, value, needle, lower, i, |value|);
    }
    if i == 0 {
      assert !Occurs(lower(value), needle);
    }
    hide IsAligned, OccursAt, Occurs, Truthful, Text;
  }

  // ----- splitOnQuery

  // The segments of the text from i on.
  function Pieces(value: string, haystack: string, needle: string, i: nat): seq<Segment>
    requires needle != ""
    decreases |value| - i
  {
    if i >= |value| then []
    else
      var at := IndexOf(haystack, needle, i);
      if at == -1 then [Segment(value[i..], false)]
      else
        var hit := Segment(Slice(value, at, at + |needle|), true);
        Gap(value, i, at) + [hit] + Pieces(value, haystack, needle, at + |needle|)
  }

  function Split(value: string, query: string, lower: string -> string): seq<Segment> {
    var needle := lower(Trim(query));
    if Trim(query) == "" || value == "" || needle == "" then [Segment(value, false)]
    else Pieces(value, lower(value), needle, 0)
  }

  lemma {:induction false} PiecesFinish(out: seq<Segment>, value: string, needle: string,
                                        lower: string -> string, i: nat)
    requires SoFar(out, value, needle, lower, i) && needle != "" && value != ""
    ensures var all := out + Pieces(value, lower(value), needle, i);
            && Text(all) == value
            && (AnyHit(all) <==> Occurs(lower(value), needle))
            && (IsAligned(lower, value) ==> AllTruthful(all, needle, lower))
    decreases |value| - i
  {
    hide IsAligned, OccursAt, Occurs, AllTruthful, AnyHit, Text;
    if i >= |value| {
      assert out + [] == out;
    } else {
      hide Slice, SoFar;
      var at := IndexOf(lower(value), needle, i);
      if at == -1 {
        LastPart(out, value, needle, lower, i);
      } else {
        var next := out + Gap(value, i, at) + [Segment(Slice(value, at, at + |needle|), true)];
        NextMatch(out, value, needle, lower, i, at);
        PiecesFinish(next, value, needle, lower, at + |needle|);
        PiecesAfter(out, value, lower(value), needle, i, at);
      }
    }
  }

  lemma PiecesAfter(out: seq<Segment>, value: string, haystack: string, needle: string, i: nat, at: nat)
    requires needle != "" && i < |value| && at == IndexOf(haystack, needle, i)
    ensures out + Pieces(value, haystack, needle, i) ==
            out + Gap(value, i, at) + [Segment(Slice(value, at, at + |needle|), true)]
            + Pieces(value, haystack, needle, at + |needle|)
  {
    hide IndexOf, Gap, Slice;
  }

  // What the segments are for: they concatenate to the text, some of them is a
  // hit exactly when the query matches, and where lowercasing keeps the text's
  // characters in place each hit is the needle and no other part contains it.
  lemma SplitMeans(value: string, query: string, lower: string -> string)
    requires IsLowercasing(lower)
    ensures var out := Split(value, query, lower);
            && Text(out) == value
            && (AnyHit(out) <==> Matches(value, query, lower))
            && (IsAligned(lower, value) && Trim(query) != "" ==> AllTruthful(out, lower(Trim(query)), lower))
  {
    if Trim(query) == "" || value == "" {
      OnePlainPart(value, query, lower);
    } else {
      var needle := lower(Trim(query));
      MatchesMeans(value, query, lower);
      NothingSoFar(value, needle, lower);
      assert needle != "";
      hide IsLowercasing, Matches, SoFar, Occurs, AnyHit, AllTruthful, IsAligned, Text, Trim;
      PiecesFinish([], value, needle, lower, 0);
      assert [] + Pieces(value, lower(value), needle, 0) == Pieces(value, lower(value), needle, 0);
    }
  }

  lemma NothingSoFar(value: string, needle: string, lower: string -> string)
    ensures SoFar([], value, needle, lower, 0)
  {
  }

  lemma GapPushed(out: seq<Segment>, value: string, i: nat, at: nat)
    requires i <= at
    ensures out + Gap(value, i, at) == if at > i then out + [Segment(Slice(value, i, at), false)] else out
  {
  }

  lemma PiecesEnd(out: seq<Segment>, value: string, haystack: string, needle: string, i: nat)
    requires needle != ""
    ensures i >= |value| ==> out + Pieces(value, haystack, needle, i) == out
    ensures i < |value| && IndexOf(haystack, needle, i) == -1 ==>
              out + Pieces(value, haystack, needle, i) == out + [Segment(value[i..], false)]
  {
    hide IndexOf;
  }

  // The loop.
  method SplitLoop(value: string, haystack: string, needle: string) returns (out: seq<Segment>)
    requires needle != ""
    ensures out == Pieces(value, haystack, needle, 0)
  {
    hide Pieces, IndexOf, Gap, Slice;
    out := [];
    var i := 0;
    while i < |value|
      invariant out + Pieces(value, haystack, needle, i) == Pieces(value, haystack, needle, 0)
    {
      var at := IndexOf(haystack, needle, i);
      if at == -1 {
        PiecesEnd(out, value, haystack, needle, i);
        return out + [Segment(value[i..], false)];
      }
      PiecesAfter(out, value, haystack, needle, i, at);
      GapPushed(out, value, i, at);
      if at > i {
        out := out + [Segment(Slice(value, i, at), false)];
      }
      out := out + [Segment(Slice(value, at, at + |needle|), true)];
      i := at + |needle|;
    }
    PiecesEnd(out, value, haystack, needle, i);
  }

  method SplitOnQuery(text: Option<string>, query: string, lower: string -> string) returns (out: seq<Segment>)
    requires IsLowercasing(lower)
    ensures var value := if text.Some? then text.value else "";
            && out == Split(value, query, lower)
            && Text(out) == value
            && (AnyHit(out) <==> Matches(value, query, lower))
            && (IsAligned(lower, value) && Trim(query) != "" ==> AllTruthful(out, lower(Trim(query)), lower))
  {
    var value := if text.Some? then text.value else "";
    SplitMeans(value, query, lower);
    var q := Trim(query);
    if q == "" || value == "" {
      return [Segment(value, false)];
    }
    out := SplitLoop(value, lower(value), lower(q));
  }

  // A capital I with a dot lowercases to two characters. After one, places in
  // the lowercased text are not places in the text: the hit comes out empty and
  // the part before it holds the needle.
  lemma MisalignedSplit(lower: string -> string)
    requires lower("\U{0130}a") == "i\U{0307}a" && lower("a") == "a"
    ensures !IsAligned(lower, "\U{0130}a")
    ensures var out := Split("\U{0130}a", "a", lower);
            && out == [Segment("\U{0130}a", false), Segment("", true)]
            && !Truthful(out[0], "a", lower)
            && (lower("") == "" ==> !Truthful(out[1], "a", lower))
  {
    var value, h := "\U{0130}a", "i\U{0307}a";
    assert Trim("a") == "a";
    assert h[0..1] == "i" && h[1..2] == "\U{0307}" && h[2..3] == "a";
    assert OccursAt(h, "a", 2) && !OccursAt(h, "a", 0) && !OccursAt(h, "a", 1);
    assert IndexOf(h, "a", 1) == 2;
    assert IndexOf(h, "a", 0) == 2;
    assert Pieces(value, h, "a", 3) == [];
    assert Pieces(value, h, "a", 0) == Gap(value, 0, 2) + [Segment(Slice(value, 2, 3), true)] + [];
    assert Occurs(h, "a");
  }

  // ----- exactly which texts are split truthfully

  // What one character becomes.
  function Image(lower: string -> string, value: string, i: nat): string
    requires i < |value|
  {
    lower(value[i..i + 1])
  }

  // Lowercasing goes part by part on this text, its characters are lowercase, and
  // a character that becomes several does not begin with white space.
  ghost predicate IsRegular(lower: string -> string, value: string) {
    && (forall i, j, k :: 0 <= i <= j <= k <= |value| ==>
          lower(value[i..k]) == lower(value[i..j]) + lower(value[j..k]))
    && (forall i :: 0 <= i < |lower(value)| ==> lower([lower(value)[i]]) == [lower(value)[i]])
    && (forall i :: 0 <= i < |value| && |Image(lower, value, i)| > 1 ==> !IsSpace(Image(lower, value, i)[0]))
  }

  // No text becomes shorter, part by part.
  lemma {:induction false} NoShorter(value: string, lower: string -> string, i: nat, j: nat)
    requires IsLowercasing(lower) && IsRegular(lower, value) && i <= j <= |value|
    ensures |lower(value[i..j])| >= j - i
    decreases j - i
  {
    if i < j {
      NoShorter(value, lower, i, j - 1);
      assert value[j - 1..j] != "";
      assert lower(value[i..j]) == lower(value[i..j - 1]) + lower(value[j - 1..j]);
    }
  }

  lemma Parts(value: string, lower: string -> string, i: nat, j: nat)
    requires IsRegular(lower, value) && i <= j <= |value|
    ensures lower(value) == lower(value[..i]) + lower(value[i..j]) + lower(value[j..])
  {
    assert value[0..|value|] == value && value[0..i] == value[..i] && value[j..|value|] == value[j..];
    assert lower(value[0..|value|]) == lower(value[0..i]) + lower(value[i..|value|]);
    assert lower(value[i..|value|]) == lower(value[i..j]) + lower(value[j..|value|]);
  }

  // A text that stays as long keeps its characters in place.
  lemma SameLengthAligned(value: string, lower: string -> string)
    requires IsLowercasing(lower) && IsRegular(lower, value) && |lower(value)| == |value|
    ensures IsAligned(lower, value)
  {
    forall i, j | 0 <= i <= j <= |value|
      ensures lower(value[i..j]) == lower(value)[i..j]
    {
      Parts(value, lower, i, j);
      NoShorter(value, lower, 0, i);
      NoShorter(value, lower, i, j);
      NoShorter(value, lower, j, |value|);
      assert value[0..i] == value[..i] && value[j..|value|] == value[j..];
    }
  }

  // Up to the first character that becomes several, nothing has moved.
  lemma {:induction false} FirstGrown(value: string, lower: string -> string, n: nat) returns (g: nat)
    requires IsLowercasing(lower) && IsRegular(lower, value) && n <= |value| && |lower(value[..n])| > n
    ensures g < n && |lower(value[..g])| == g && |lower(value[g..g + 1])| > 1
  {
    NoShorter(value, lower, 0, n - 1);
    assert value[0..n - 1] == value[..n - 1] && value[0..n] == value[..n];
    assert lower(value[0..n]) == lower(value[0..n - 1]) + lower(value[n - 1..n]);
    if |lower(value[..n - 1])| > n - 1 {
      g := FirstGrown(value, lower, n - 1);
    } else {
      g := n - 1;
    }
  }

  // Looking for one character, its place at g is reached and marked as a hit.
  lemma {:induction false} ReachesHit(value: string, h: string, x: char, i: nat, g: nat)
    requires i <= g < |value| && g < |h| && h[g] == x
    ensures Segment(value[g..g + 1], true) in Pieces(value, h, [x], i)
    decreases g - i
  {
    FoundBy(h, x, i, g);
    hide Pieces, OccursAt, Slice, Gap, IndexOf;
    var at: nat, hit := IndexOf(h, [x], i), Segment(value[g..g + 1], true);
    if at == g {
      SliceOne(value, g);
    } else {
      ReachesHit(value, h, x, at + 1, g);
    }
    InPieces(value, h, [x], i, at, hit);
  }

  lemma SliceOne(s: string, i: nat)
    requires i < |s|
    ensures Slice(s, i, i + 1) == s[i..i + 1]
  {
  }

  lemma InPieces(value: string, haystack: string, needle: string, i: nat, at: nat, s: Segment)
    requires needle != "" && i < |value| && at == IndexOf(haystack, needle, i)
    requires || s == Segment(Slice(value, at, at + |needle|), true)
             || s in Pieces(value, haystack, needle, at + |needle|)
    ensures s in Pieces(value, haystack, needle, i)
  {
    FirstPieces(value, haystack, needle, i, at);
    hide Pieces, IndexOf, Slice, Gap;
  }

  lemma FoundBy(h: string, x: char, i: nat, g: nat)
    requires i <= g < |h| && h[g] == x
    ensures i <= IndexOf(h, [x], i) <= g
  {
    assert OccursAt(h, [x], g);
    hide IndexOf;
  }

  lemma FirstPieces(value: string, haystack: string, needle: string, i: nat, at: nat)
    requires needle != "" && i < |value| && at == IndexOf(haystack, needle, i)
    ensures Pieces(value, haystack, needle, i) ==
            Gap(value, i, at) + [Segment(Slice(value, at, at + |needle|), true)]
            + Pieces(value, haystack, needle, at + |needle|)
  {
    hide IndexOf, Gap, Slice;
  }

  // The first character of what a character becomes is found in its place, and
  // the hit is the whole character.
  lemma GrownMisleads(value: string, lower: string -> string) returns (query: string)
    requires IsLowercasing(lower) && IsRegular(lower, value) && |lower(value)| != |value|
    ensures Trim(query) != "" && !AllTruthful(Split(value, query, lower), lower(Trim(query)), lower)
  {
    assert value[0..|value|] == value && value[..|value|] == value;
    NoShorter(value, lower, 0, |value|);
    var g := FirstGrown(value, lower, |value|);
    var h, grown := lower(value), Image(lower, value, g);
    Parts(value, lower, g, g + 1);
    assert h[g] == grown[0];
    query := [grown[0]];
    assert Trim(query) == query && lower(query) == query;
    ReachesHit(value, h, grown[0], 0, g);
    assert !Truthful(Segment(value[g..g + 1], true), query, lower);
  }

  // Exactly the texts that stay as long when lowercased are split truthfully on
  // every query.
  lemma TruthfulExactly(value: string, lower: string -> string)
    requires IsLowercasing(lower) && IsRegular(lower, value)
    ensures (forall query :: Trim(query) != "" ==>
               AllTruthful(Split(value, query, lower), lower(Trim(query)), lower))
       <==> |lower(value)| == |value|
  {
    if |lower(value)| == |value| {
      SameLengthAligned(value, lower);
      forall query | Trim(query) != ""
        ensures AllTruthful(Split(value, query, lower), lower(Trim(query)), lower)
      {
        SplitMeans(value, query, lower);
      }
    } else {
      var query := GrownMisleads(value, lower);
    }
    hide Split, AllTruthful, Trim, IsRegular, IsLowercasing;
  }

  // Part by part matters: a capital sigma lowercases to another letter at the end
  // of a word than alone. The text stays as long, yet the hit is not the needle.
  lemma FinalSigma(lower: string -> string)
    requires lower("\U{0391}\U{03A3}") == "\U{03B1}\U{03C2}"
    requires lower("\U{03A3}") == "\U{03C3}" && lower("\U{03C2}") == "\U{03C2}"
    ensures var value, query := "\U{0391}\U{03A3}", "\U{03C2}";
            && |lower(value)| == |value| && !IsRegular(lower, value)
            && Split(value, query, lower) == [Segment("\U{0391}", false), Segment("\U{03A3}", true)]
            && !Truthful(Segment("\U{03A3}", true), lower(Trim(query)), lower)
  {
    var value, query, h := "\U{0391}\U{03A3}", "\U{03C2}", "\U{03B1}\U{03C2}";
    assert Trim(query) == query;
    assert h[0..1] == "\U{03B1}" && h[1..2] == query;
    assert OccursAt(h, query, 1) && !OccursAt(h, query, 0);
    assert IndexOf(h, query, 1) == 1;
    assert IndexOf(h, query, 0) == 1;
    assert value[0..1] == "\U{0391}" && value[1..2] == "\U{03A3}";
    assert Pieces(value, h, query, 2) == [];
    assert Pieces(value, h, query, 0) == Gap(value, 0, 1) + [Segment(Slice(value, 1, 2), true)] + [];
    var apart := lower(value[0..1]) + lower(value[1..2]);
    assert apart[|apart| - 1] == '\U{03C3}';
    assert value[0..2] == value && lower(value[0..2]) != apart;
  }

  lemma MatchesMeans(value: string, query: string, lower: string -> string)
    requires IsLowercasing(lower) && Trim(query) != ""
    ensures Matches(value, query, lower) <==> Occurs(lower(value), lower(Trim(query)))
  {
  }

  lemma OnePlainPart(value: string, query: string, lower: string -> string)
    requires IsLowercasing(lower) && (Trim(query) == "" || value == "")
    ensures var out := [Segment(value, false)];
            && Text(out) == value && !AnyHit(out) && !Matches(value, query, lower)
            && (Trim(query) != "" ==> AllTruthful(out, lower(Trim(query)), lower))
  {
    TextAdd([], Segment(value, false));
    assert [] + [Segment(value, false)] == [Segment(value, false)];
    if Trim(query) != "" {
      var needle := lower(Trim(query));
      assert |lower(value)| == 0;
      assert forall at :: !OccursAt(lower(value), needle, at);
    }
  }
}
