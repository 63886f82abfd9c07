/** Extraction of PNG file paths from free text: Python's
    `re.findall(r'(/[^\s]+\.png)', text)` written out as an explicit scanner.

    `findall` scans left to right and its matches never overlap. At a start position
    holding '/', the greedy `[^\s]+` first takes the whole run of non-whitespace
    characters and then gives characters back until `\.png` follows, so the match
    ends at the LAST ".png" of that run that leaves at least one character between
    the '/' and the ".png". When no such end exists the scanner moves on by one
    character; after a match it resumes right behind it. */
module MediaPaths {
  import opened Base
  import opened Text

  /** The shape of every match: a '/', at least one more character, then ".png",
      with no whitespace anywhere. */
  predicate IsPngPath(p: string) {
    && |p| >= 6
    && p[0] == '/'
    && NoSpace(p)
    && p[|p| - 4..] == ".png"
  }

  /** End of the maximal run of non-whitespace characters that starts at `i`. */
  function RunEnd(s: string, i: nat): (j: nat)
    requires i <= |s|
    ensures i <= j <= |s|
    ensures forall k :: i <= k < j ==> !IsSpace(s[k])
    ensures j == |s| || IsSpace(s[j])
    decreases |s| - i
  {
    if i == |s| || IsSpace(s[i]) then i else RunEnd(s, i + 1)
  }

  /** ".png" ends right before index `e`. */
  predicate PngEndsAt(s: string, e: int) {
    4 <= e <= |s| && s[e - 4..e] == ".png"
  }

  /** The largest `e` in `[lo, hi]` at which ".png" ends, if any. */
  function LastPngEnd(s: string, lo: nat, hi: nat): (r: Option<nat>)
    requires hi <= |s|
    ensures r.Some? ==> lo <= r.value <= hi && PngEndsAt(s, r.value)
    ensures r.Some? ==> forall e :: r.value < e <= hi ==> !PngEndsAt(s, e)
    ensures r.None? ==> forall e :: lo <= e <= hi ==> !PngEndsAt(s, e)
    decreases hi
  {
    if hi < lo then None
    else if PngEndsAt(s, hi) then Some(hi)
    else if hi == 0 then None
    else LastPngEnd(s, lo, hi - 1)
  }

  /** The end of the match that starts at `i`, if the pattern matches there. */
  function MatchAt(s: string, i: nat): (r: Option<nat>)
    requires i < |s|
    ensures r.Some? ==> i + 6 <= r.value <= |s| && IsPngPath(s[i..r.value])
    ensures r.Some? ==> forall e :: r.value < e <= RunEnd(s, i) ==> !PngEndsAt(s, e)
    ensures r.None? ==> s[i] != '/' || forall e :: i + 6 <= e <= RunEnd(s, i) ==> !PngEndsAt(s, e)
  {
    if s[i] != '/' then None
    else
      var r := LastPngEnd(s, i + 6, RunEnd(s, i));
      if r.None? then r
      else
        assert s[i..r.value][1..] == s[i + 1..r.value];
        assert s[i..r.value][|s[i..r.value]| - 4..] == s[r.value - 4..r.value];
        r
  }

  /** All matches at or after position `i`, in order. */
  function FindFrom(s: string, i: nat): (r: seq<string>)
    requires i <= |s|
    ensures forall k :: 0 <= k < |r| ==> IsPngPath(r[k]) && Contains(s, r[k])
    decreases |s| - i
  {
    if i == |s| then []
    else
      match MatchAt(s, i)
      case Some(e) =>
        assert OccursAt(s, s[i..e], i);
        [s[i..e]] + FindFrom(s, e)
      case None => FindFrom(s, i + 1)
  }

  /** `re.findall(r'(/[^\s]+\.png)', text)`: every match, in text order, duplicates kept.
      This is `parse_image_paths` of the smolagents app, which applies no further filter. */
  function FindAll(text: string): (r: seq<string>)
    ensures forall k :: 0 <= k < |r| ==> IsPngPath(r[k]) && Contains(text, r[k])
  {
    FindFrom(text, 0)
  }

  /** `parse_image_paths` of the streaming helpers: the matches for which the file
      exists, in order; the existence test `os.path.exists` is the parameter `fileExists`.
      Every kept match occurs exactly as often as among all matches (`ExistingPathsCounted`). */
  function ParseImagePaths(text: string, fileExists: string -> bool): (r: seq<string>)
    ensures forall k :: 0 <= k < |r| ==> IsPngPath(r[k]) && fileExists(r[k]) && Contains(text, r[k])
  {
    Filter(FindAll(text), fileExists)
  }

  /** Each path whose file exists is returned exactly as often as it matches, and no
      other path is returned at all. */
  lemma ExistingPathsCounted(text: string, fileExists: string -> bool)
    ensures forall p :: multiset(ParseImagePaths(text, fileExists))[p]
                        == if fileExists(p) then multiset(FindAll(text))[p] else 0
  {
    FilterCounts(FindAll(text), fileExists);
  }

  /** When no file exists, nothing is returned. */
  lemma NoneExistNoPaths(text: string, fileExists: string -> bool)
    requires forall p :: !fileExists(p)
    ensures ParseImagePaths(text, fileExists) == []
  {
    FilterNone(FindAll(text), fileExists);
  }

  /** When every file exists, the filtered and unfiltered extractions agree. */
  lemma AllExistAllPaths(text: string, fileExists: string -> bool)
    requires forall p :: fileExists(p)
    ensures ParseImagePaths(text, fileExists) == FindAll(text)
  {
    FilterAll(FindAll(text), fileExists);
  }

  /** A stretch without '/' produces no match and is skipped character by character. */
  lemma SkipNoSlash(s: string, i: nat, k: nat)
    requires i <= k <= |s|
    requires '/' !in s[i..k]
    ensures FindFrom(s, i) == FindFrom(s, k)
  {
    forall j: nat | i <= j < k
      ensures FindFrom(s, j) == FindFrom(s, j + 1)
    {
      assert s[j] == s[i..k][j - i];
      NoSlashStep(s, j);
    }
    StepsEqual((j: nat) => if j <= |s| then FindFrom(s, j) else [], i, k);
  }

  /** A position without '/' starts no match and is passed over. */
  lemma NoSlashStep(s: string, j: nat)
    requires j < |s| && s[j] != '/'
    ensures FindFrom(s, j) == FindFrom(s, j + 1)
  {
  }

  /** A text without any '/' has no match. */
  lemma NoSlashNoPaths(text: string)
    requires '/' !in text
    ensures FindAll(text) == []
  {
    assert text[0..|text|] == text;
    SkipNoSlash(text, 0, |text|);
  }

  /** A separator that ends a path: it has no '/' and no '.', and it holds whitespace,
      as ", " and " " do. */
  predicate Separates(sep: string) {
    '/' !in sep && '.' !in sep && !NoSpace(sep)
  }

  /** A well-formed path at `i`, followed by the end of the text or by a separator,
      is matched exactly. */
  lemma PathMatchesAt(s: string, i: nat, p: string, sep: string)
    requires IsPngPath(p) && OccursAt(s, p, i)
    requires i + |p| == |s| || (Separates(sep) && OccursAt(s, sep, i + |p|))
    ensures i < |s| && MatchAt(s, i) == Some(i + |p|)
  {
    var e := i + |p|;
    assert s[i] == p[0];
    assert s[i..e][|p| - 4..] == s[e - 4..e];
    assert PngEndsAt(s, e);
    forall k | i <= k < e
      ensures !IsSpace(s[k])
    {
      assert s[k] == p[k - i];
    }
    RunEndSkips(s, i, e);
    if e < |s| {
      NoPngAfterPath(s, i, p, sep);
    }
  }

  /** Between the end of a path and the whitespace of the separator behind it, no
      ".png" ends. */
  lemma NoPngAfterPath(s: string, i: nat, p: string, sep: string)
    requires IsPngPath(p) && OccursAt(s, p, i)
    requires Separates(sep) && OccursAt(s, sep, i + |p|)
    ensures forall e' :: i + |p| < e' <= RunEnd(s, i + |p|) ==> !PngEndsAt(s, e')
  {
    var e := i + |p|;
    var j := RunEnd(s, e);
    var w :| 0 <= w < |sep| && IsSpace(sep[w]);
    assert s[e + w] == sep[w];
    assert j <= e + w;
    forall e' | e < e' <= j
      ensures !PngEndsAt(s, e')
    {
      NotDotAfterPath(s, i, p, sep, e' - 4);
      assert s[e' - 4..e'][0] == s[e' - 4];
    }
  }

  /** Just behind a matched path, no '.' can start another ".png" before the separator's
      whitespace: the path's own last three characters are "png" and the separator holds
      no '.'. */
  lemma NotDotAfterPath(s: string, i: nat, p: string, sep: string, d: int)
    requires IsPngPath(p) && OccursAt(s, p, i)
    requires Separates(sep) && OccursAt(s, sep, i + |p|)
    requires i + |p| - 4 < d < i + |p| + |sep|
    ensures s[d] != '.'
  {
    var e := i + |p|;
    if d >= e {
      assert s[d] == s[e..e + |sep|][d - e];
    } else {
      assert s[d] == p[d - i];
      assert p[d - i] == p[|p| - 4..][d - i - (|p| - 4)];
    }
  }

  /** A non-whitespace stretch does not end the run. */
  lemma RunEndSkips(s: string, i: nat, e: nat)
    requires i <= e <= |s|
    requires forall k :: i <= k < e ==> !IsSpace(s[k])
    ensures RunEnd(s, i) == RunEnd(s, e)
  {
    StepsEqual((k: nat) => if k <= |s| then RunEnd(s, k) else 0, i, e);
  }

  /** Scanning a separator-joined list of well-formed paths yields exactly that list. */
  lemma {:induction false} ScanJoined(s: string, i: nat, sep: string, paths: seq<string>)
    requires i <= |s| && s[i..] == Join(sep, paths)
    requires Separates(sep)
    requires forall k :: 0 <= k < |paths| ==> IsPngPath(paths[k])
    ensures FindFrom(s, i) == paths
    decreases |paths|
  {
    if paths == [] {
      assert |s[i..]| == 0;
      FindAtEnd(s);
    } else if |paths| == 1 {
      ScanLastOfJoined(s, i, paths[0]);
    } else {
      var e := ScanFirstOfJoined(s, i, sep, paths);
      ScanJoined(s, e, sep, paths[1..]);
      assert paths == [paths[0]] + paths[1..];
    }
  }

  /** A well-formed path that ends the text is its last match. */
  lemma ScanLastOfJoined(s: string, i: nat, p: string)
    requires i <= |s| && s[i..] == p && IsPngPath(p)
    ensures FindFrom(s, i) == [p]
  {
    assert |s| == i + |p|;
    assert s[i..i + |p|] == p;
    PathMatchesAt(s, i, p, "");
    FindStep(s, i, |s|);
    FindAtEnd(s);
    SingletonAppendEmpty(s[i..|s|]);
  }

  /** Nothing is found at the end of the text. */
  lemma FindAtEnd(s: string)
    ensures FindFrom(s, |s|) == []
  {
  }

  /** A match at `i` is found first, and scanning resumes right behind it. */
  lemma FindStep(s: string, i: nat, e: nat)
    requires i < |s| && MatchAt(s, i) == Some(e)
    ensures FindFrom(s, i) == [s[i..e]] + FindFrom(s, e)
  {
  }

  /** One step of `ScanJoined`: the first path is matched, and scanning resumes at the
      rest of the list, behind the separator. */
  lemma ScanFirstOfJoined(s: string, i: nat, sep: string, paths: seq<string>) returns (next: nat)
    requires i <= |s| && s[i..] == Join(sep, paths)
    requires Separates(sep)
    requires |paths| > 1 && IsPngPath(paths[0])
    ensures next <= |s| && s[next..] == Join(sep, paths[1..])
    ensures FindFrom(s, i) == [paths[0]] + FindFrom(s, next)
  {
    var p := paths[0];
    var e := i + |p|;
    next := e + |sep|;
    JoinUnfold(sep, paths);
    JoinedPieces(s, i, p, sep, Join(sep, paths[1..]));
    PathMatchesAt(s, i, p, sep);
    FindStep(s, i, e);
    SkipNoSlash(s, e, next);
  }

  /** A list of two or more parts joins as its first part, the separator and the rest. */
  lemma JoinUnfold(sep: string, parts: seq<string>)
    requires |parts| > 1
    ensures Join(sep, parts) == parts[0] + sep + Join(sep, parts[1..])
  {
  }

  /** The pieces of a text that reads, from `i` on, as `p`, `sep` and `rest`. */
  lemma JoinedPieces(s: string, i: nat, p: string, sep: string, rest: string)
    requires i <= |s| && s[i..] == p + sep + rest
    ensures i + |p| + |sep| <= |s|
    ensures s[i..i + |p|] == p && OccursAt(s, p, i)
    ensures s[i + |p|..i + |p| + |sep|] == sep && OccursAt(s, sep, i + |p|)
    ensures s[i + |p| + |sep|..] == rest
  {
    ThreeParts(p, sep, rest);
    SliceOfSuffix(s, i, 0, |p|);
    SliceOfSuffix(s, i, |p|, |p| + |sep|);
    assert s[i + |p| + |sep|..] == s[i..][|p| + |sep|..];
  }

  /** A slice of a suffix is a slice of the text. */
  lemma SliceOfSuffix(s: string, i: nat, a: nat, b: nat)
    requires i <= |s| && a <= b <= |s| - i
    ensures s[i..][a..b] == s[i + a..i + b]
  {
  }

  /** Round trip: a status line that lists well-formed paths after a slash-free prefix,
      separated by ", " or " ", gives back exactly those paths, in order, duplicates kept. */
  lemma JoinedPathsRoundTrip(prefix: string, sep: string, paths: seq<string>)
    requires '/' !in prefix
    requires Separates(sep)
    requires forall k :: 0 <= k < |paths| ==> IsPngPath(paths[k])
    ensures FindAll(prefix + Join(sep, paths)) == paths
  {
    var s := prefix + Join(sep, paths);
    assert s[0..|prefix|] == prefix;
    SkipNoSlash(s, 0, |prefix|);
    assert s[|prefix|..] == Join(sep, paths);
    ScanJoined(s, |prefix|, sep, paths);
  }

  /** Duplicates are not removed: the same existing path twice is returned twice. */
  lemma DuplicatesKept(p: string, fileExists: string -> bool)
    requires IsPngPath(p) && fileExists(p)
    ensures ParseImagePaths(p + " " + p, fileExists) == [p, p]
  {
    assert Join(" ", [p, p]) == p + " " + Join(" ", [p]);
    assert Separates(" ") by {
      assert IsSpace(" "[0]);
    }
    JoinedPathsRoundTrip("", " ", [p, p]);
    assert "" + Join(" ", [p, p]) == p + " " + p;
    assert FindAll(p + " " + p) == [p, p];
    assert Filter([p], fileExists) == [p] + Filter([], fileExists);
    assert [p, p][1..] == [p];
  }
}
