/** Repository-relative paths: POSIX normalisation, the safety test applied to every path the
    model proposes, and what that test means for the file the path names
    (app/context_engine.py). */
module RepoPaths {
  import opened Wrappers

  // ---- Strings and components ----

  function Split(s: string): (parts: seq<string>)
    ensures |parts| > 0
    ensures forall i :: 0 <= i < |parts| ==> '/' !in parts[i]
  {
    if s == "" then [""]
    else
      var rest := Split(s[1..]);
      if s[0] == '/' then [""] + rest else [[s[0]] + rest[0]] + rest[1..]
  }

  function Join(parts: seq<string>): string {
    if parts == [] then ""
    else if |parts| == 1 then parts[0]
    else parts[0] + "/" + Join(parts[1..])
  }

  predicate StartsWith(s: string, prefix: string) {
    |prefix| <= |s| && s[..|prefix|] == prefix
  }

  predicate EndsWith(s: string, suffix: string) {
    |suffix| <= |s| && s[|s| - |suffix|..] == suffix
  }

  // ---- Normalisation ----

  /** The component loop of `posixpath.normpath` on a relative path; `done` is what it has kept. */
  function NormFrom(parts: seq<string>, done: seq<string>): seq<string> {
    if parts == [] then done
    else if parts[0] == "" || parts[0] == "." then NormFrom(parts[1..], done)
    else if parts[0] != ".." || done == [] || Last(done) == ".." then NormFrom(parts[1..], done + [parts[0]])
    else NormFrom(parts[1..], done[..|done| - 1])
  }

  predicate IsAbsolute(path: string) { path != "" && path[0] == '/' }

  function NormPath(path: string): string
    requires !IsAbsolute(path)
  {
    var kept := NormFrom(Split(path), []);
    if kept == [] then "." else Join(kept)
  }

  // ---- The safety test ----

  const DENIED_NAMES: set<string> := {".env", ".git", ".hg", ".svn", "id_rsa", "id_dsa", ".netrc", ".pgpass"}
  const DENIED_SUFFIXES: seq<string> := [".pem", ".key", ".p12", ".pfx", ".secret"]
  const DENIED_PREFIX := ".env."

  predicate IsDenied(name: string) {
    var low := Lower(name);
    || low in DENIED_NAMES
    || (exists i :: 0 <= i < |DENIED_SUFFIXES| && EndsWith(low, DENIED_SUFFIXES[i]))
    || StartsWith(low, DENIED_PREFIX)
  }

  predicate IsSafeRepoPath(path: string) {
    if path == "" || IsAbsolute(path) then false
    else
      var norm := NormPath(path);
      var parts := Split(norm);
      if StartsWith(norm, "..") || ".." in parts then false
      else forall i :: 0 <= i < |parts| ==> !IsDenied(parts[i])
  }

  ghost predicate StartsBy(text: string, prefix: string) { exists rest :: IsJoined(text, prefix, rest) }

  ghost predicate EndsBy(text: string, suffix: string) { exists stem :: IsJoined(text, stem, suffix) }

  predicate IsJoined(text: string, front: string, back: string) { text == front + back }

  lemma EndsIff(text: string, suffix: string)
    ensures EndsWith(text, suffix) <==> EndsBy(text, suffix)
  {
    if EndsWith(text, suffix) {
      assert IsJoined(text, text[..|text| - |suffix|], suffix);
    }
  }

  /** Which components are denied, whatever their case. */
  lemma DeniedIff(name: string)
    ensures IsDenied(name) <==>
      var low := Lower(name);
      || low in {".env", ".git", ".hg", ".svn", "id_rsa", "id_dsa", ".netrc", ".pgpass"}
      || EndsBy(low, ".pem") || EndsBy(low, ".key") || EndsBy(low, ".p12") || EndsBy(low, ".pfx")
      || EndsBy(low, ".secret")
      || StartsBy(low, ".env.")
  {
    hide Lower, EndsWith, EndsBy;
    var low := Lower(name);
    assert DENIED_SUFFIXES[0] == ".pem" && DENIED_SUFFIXES[1] == ".key" && DENIED_SUFFIXES[2] == ".p12";
    assert DENIED_SUFFIXES[3] == ".pfx" && DENIED_SUFFIXES[4] == ".secret";
    forall i | 0 <= i < |DENIED_SUFFIXES|
      ensures EndsWith(low, DENIED_SUFFIXES[i]) <==> EndsBy(low, DENIED_SUFFIXES[i])
    {
      EndsIff(low, DENIED_SUFFIXES[i]);
    }
    if StartsWith(low, ".env.") {
      assert IsJoined(low, ".env.", low[5..]);
    }
  }

  /** The components of a path, put together again, are the path. */
  lemma {:induction false} JoinSplit(s: string)
    ensures Join(Split(s)) == s
  {
    if s != "" {
      JoinSplit(s[1..]);
      var rest := Split(s[1..]);
      if s[0] == '/' {
        assert ([""] + rest)[1..] == rest;
      } else {
        assert Split(s)[1..] == rest[1..];
      }
      assert s == [s[0]] + s[1..];
    }
  }

  // ---- What a path means: a walk down and up the directory tree from the root ----

  /** Where the components lead from `at`, or nothing if any prefix of them climbs above the
      root. This never looks at the normal form. */
  function Walk(parts: seq<string>, at: seq<string>): Option<seq<string>> {
    if parts == [] then Some(at)
    else if parts[0] == "" || parts[0] == "." then Walk(parts[1..], at)
    else if parts[0] != ".." then Walk(parts[1..], at + [parts[0]])
    else if at == [] then None
    else Walk(parts[1..], at[..|at| - 1])
  }

  predicate IsName(part: string) { part != "" && part != "." && part != ".." }

  predicate AllNames(parts: seq<string>) {
    forall i :: 0 <= i < |parts| ==> IsName(parts[i]) && '/' !in parts[i]
  }

  /** The file a safe path names, as the components below the checkout root. */
  function FileOf(path: string): (file: seq<string>)
    requires IsSafeRepoPath(path)
    ensures AllNames(file) && Walk(Split(path), []) == Some(file)
  {
    SafeIff(path);
    NormIsWalk(Split(path), []);
    Walk(Split(path), []).value
  }

  // ---- Lemmas ----

  /** Once the kept components start with "..", they always do. */
  lemma {:induction false} DotsStay(parts: seq<string>, done: seq<string>)
    requires done != [] && done[0] == ".."
    ensures NormFrom(parts, done) != [] && NormFrom(parts, done)[0] == ".."
  {
    if parts == [] {
    } else if parts[0] == "" || parts[0] == "." {
      DotsStay(parts[1..], done);
    } else if parts[0] != ".." || Last(done) == ".." {
      DotsStay(parts[1..], done + [parts[0]]);
    } else {
      DotsStay(parts[1..], done[..|done| - 1]);
    }
  }

  /** Normalisation computes the walk: its result is the destination when the walk stays below
      the root, and otherwise starts with "..". */
  lemma {:induction false} NormIsWalk(parts: seq<string>, at: seq<string>)
    requires AllNames(at) && forall i :: 0 <= i < |parts| ==> '/' !in parts[i]
    ensures Walk(parts, at).Some? ==> NormFrom(parts, at) == Walk(parts, at).value && AllNames(NormFrom(parts, at))
    ensures Walk(parts, at).None? ==> NormFrom(parts, at) != [] && NormFrom(parts, at)[0] == ".."
  {
    if parts == [] {
    } else if parts[0] == "" || parts[0] == "." {
      NormIsWalk(parts[1..], at);
    } else if parts[0] != ".." {
      NormIsWalk(parts[1..], at + [parts[0]]);
    } else if at == [] {
      assert at + [parts[0]] == [".."];
      DotsStay(parts[1..], [".."]);
    } else {
      NormIsWalk(parts[1..], at[..|at| - 1]);
    }
  }

  /** Joining and splitting again gives the same components. */
  lemma {:induction false} SplitJoin(parts: seq<string>)
    requires parts != [] && forall i :: 0 <= i < |parts| ==> '/' !in parts[i]
    ensures Split(Join(parts)) == parts
  {
    if |parts| == 1 {
      SplitPlain(parts[0]);
    } else {
      SplitJoin(parts[1..]);
      SplitAtSlash(parts[0], Join(parts[1..]));
      assert Join(parts) == parts[0] + "/" + Join(parts[1..]);
    }
  }

  lemma {:induction false} SplitPlain(s: string)
    requires '/' !in s
    ensures Split(s) == [s]
  {
    if s != "" {
      SplitPlain(s[1..]);
      assert [s[0]] + s[1..] == s;
    }
  }

  lemma {:induction false} SplitAtSlash(s: string, rest: string)
    requires '/' !in s
    ensures Split(s + "/" + rest) == [s] + Split(rest)
  {
    var whole := s + "/" + rest;
    if s == "" {
      assert whole[1..] == rest;
    } else {
      SplitAtSlash(s[1..], rest);
      assert whole[1..] == s[1..] + "/" + rest;
      assert [s[0]] + s[1..] == s;
    }
  }

  /** A joined list of names starts with ".." exactly when its first name does. */
  lemma JoinStart(parts: seq<string>)
    requires parts != [] && forall i :: 0 <= i < |parts| ==> parts[i] != "" && '/' !in parts[i]
    requires parts[0] != "."
    ensures StartsWith(Join(parts), "..") <==> StartsWith(parts[0], "..")
  {
    var joined := Join(parts);
    if |parts| > 1 {
      assert joined == parts[0] + "/" + Join(parts[1..]);
      if |parts[0]| == 1 {
        assert joined[1] == '/';
      } else {
        assert joined[..2] == parts[0][..2];
      }
    }
  }

  ghost predicate Acceptable(file: seq<string>) {
    && (file != [] ==> !StartsWith(file[0], ".."))
    && forall i :: 0 <= i < |file| ==> !IsDenied(file[i])
  }

  /** The safety test accepts a path exactly when it is non-empty and relative, walking it from
      the checkout root never climbs above the root, and the place it leads to has no denied
      component and no first component that starts with two dots. */
  lemma SafeIff(path: string)
    ensures IsSafeRepoPath(path) <==>
      (path != "" && path[0] != '/'
       && Walk(Split(path), []).Some? && Acceptable(Walk(Split(path), []).value))
  {
    if path != "" && !IsAbsolute(path) {
      var kept := NormFrom(Split(path), []);
      NormIsWalk(Split(path), []);
      if Walk(Split(path), []).None? {
        NormHasNoGaps(Split(path), []);
        SplitJoin(kept);
        assert Split(NormPath(path))[0] == "..";
      } else if kept == [] {
        assert Split(".") == ["."] by { SplitPlain("."); }
        DotIsAllowed();
      } else {
        SplitJoin(kept);
        JoinStart(kept);
      }
    }
  }

  lemma DotIsAllowed()
    ensures !IsDenied(".")
  {
    assert Lower(".") == ".";
  }

  /** What the normal form is made of. */
  lemma {:induction false} NormHasNoGaps(parts: seq<string>, done: seq<string>)
    requires forall i :: 0 <= i < |parts| ==> '/' !in parts[i]
    requires forall i :: 0 <= i < |done| ==> done[i] != "" && done[i] != "." && '/' !in done[i]
    ensures forall i :: 0 <= i < |NormFrom(parts, done)| ==>
      NormFrom(parts, done)[i] != "" && NormFrom(parts, done)[i] != "." && '/' !in NormFrom(parts, done)[i]
  {
    if parts == [] {
    } else if parts[0] == "" || parts[0] == "." {
      NormHasNoGaps(parts[1..], done);
    } else if parts[0] != ".." || done == [] || Last(done) == ".." {
      NormHasNoGaps(parts[1..], done + [parts[0]]);
    } else {
      NormHasNoGaps(parts[1..], done[..|done| - 1]);
    }
  }

  /** ".." survives normalisation only as a leading run. */
  ghost predicate DotsLead(parts: seq<string>) {
    forall i, j :: 0 <= i < j < |parts| && parts[j] == ".." ==> parts[i] == ".."
  }

  lemma {:induction false} NormDotsLead(parts: seq<string>, done: seq<string>)
    requires DotsLead(done)
    ensures DotsLead(NormFrom(parts, done))
  {
    if parts == [] {
    } else if parts[0] == "" || parts[0] == "." {
      NormDotsLead(parts[1..], done);
    } else if parts[0] != ".." || done == [] || Last(done) == ".." {
      NormDotsLead(parts[1..], done + [parts[0]]);
    } else {
      NormDotsLead(parts[1..], done[..|done| - 1]);
    }
  }

  /** A normal form is kept as it is. */
  lemma {:induction false} NormKeeps(parts: seq<string>, done: seq<string>)
    requires DotsLead(done + parts)
    requires forall i :: 0 <= i < |parts| ==> parts[i] != "" && parts[i] != "."
    ensures NormFrom(parts, done) == done + parts
  {
    if parts == [] {
      assert done + parts == done;
    } else {
      assert (done + parts)[|done|] == parts[0];
      if parts[0] == ".." && done != [] {
        assert (done + parts)[|done| - 1] == Last(done);
      }
      assert done + parts == (done + [parts[0]]) + parts[1..];
      NormKeeps(parts[1..], done + [parts[0]]);
    }
  }

  /** Normalising twice changes nothing. */
  lemma NormTwice(path: string)
    requires path != "" && !IsAbsolute(path)
    ensures !IsAbsolute(NormPath(path)) && NormPath(NormPath(path)) == NormPath(path)
  {
    var kept := NormFrom(Split(path), []);
    NormHasNoGaps(Split(path), []);
    NormDotsLead(Split(path), []);
    if kept == [] {
      SplitPlain(".");
      assert NormFrom(["."], []) == NormFrom([], []);
    } else {
      SplitJoin(kept);
      NormKeeps(kept, []);
      assert [] + kept == kept;
      assert NormPath(path)[0] == kept[0][0];
    }
  }

  /** Two safe paths name the same file exactly when they normalise to the same string. */
  lemma SameFileIff(p: string, q: string)
    requires IsSafeRepoPath(p) && IsSafeRepoPath(q)
    ensures FileOf(p) == FileOf(q) <==> NormPath(p) == NormPath(q)
  {
    NormIsWalk(Split(p), []);
    NormIsWalk(Split(q), []);
    var f, g := FileOf(p), FileOf(q);
    if NormPath(p) == NormPath(q) {
      if f != [] { SplitJoin(f); }
      if g != [] { SplitJoin(g); }
      SplitPlain(".");
    }
  }
}
