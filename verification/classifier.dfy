/** The developer-tool classifier of the collector: a path is a developer
    tool when one of a fixed list of indicator strings occurs in it as a
    contiguous, case-sensitive substring. */
module Classifier {

  import opened Wrappers

  /** The sixteen indicators, in the order the collector lists them. */
  const DevIndicators: seq<string> := [
    "vscode", "Code.app", "cpptools", "Terminal.app", "iterm",
    "clang", "gcc", "cmake", "ninja", "python", "node", "cargo",
    "anaconda", "miniconda", "bin/git", "bin/make"
  ]

  /** `pattern` sits in `text` starting at position `k`. */
  predicate MatchAt(text: string, pattern: string, k: nat)
  {
    k + |pattern| <= |text| && text[k..k + |pattern|] == pattern
  }

  /** `pattern` occurs somewhere in `text` as a contiguous substring. */
  ghost predicate Occurs(pattern: string, text: string)
  {
    exists k: nat :: MatchAt(text, pattern, k)
  }

  /** The substring search of a string view: the first position at or after
      `from` where `pattern` occurs, or None for "not found". */
  function Find(text: string, pattern: string, from: nat): (r: Option<nat>)
    ensures r.Some? ==> from <= r.value && MatchAt(text, pattern, r.value)
    ensures r.Some? ==> forall k: nat :: from <= k < r.value ==> !MatchAt(text, pattern, k)
    ensures r.None? ==> forall k: nat :: from <= k ==> !MatchAt(text, pattern, k)
    decreases |text| - from
  {
    if from + |pattern| > |text| then None
    else if text[from..from + |pattern|] == pattern then Some(from)
    else Find(text, pattern, from + 1)
  }

  /** Whether any of `indicators` is found in `path`, checked in list order
      and stopping at the first hit. */
  function AnyIndicatorIn(path: string, indicators: seq<string>): (r: bool)
    ensures r <==> exists ind :: ind in indicators && Occurs(ind, path)
  {
    if indicators == [] then false
    else if Find(path, indicators[0], 0).Some? then
      assert MatchAt(path, indicators[0], Find(path, indicators[0], 0).value);
      assert indicators[0] in indicators && Occurs(indicators[0], path);
      true
    else
      assert forall ind :: ind in indicators ==> ind == indicators[0] || ind in indicators[1..];
      AnyIndicatorIn(path, indicators[1..])
  }

  /** The classifier itself. */
  function IsDevelopmentTool(path: string): (r: bool)
    ensures r <==> exists ind :: ind in DevIndicators && Occurs(ind, path)
  {
    AnyIndicatorIn(path, DevIndicators)
  }

  /** The outcome does not depend on the order of the indicator list. */
  lemma AnyIndicatorOrderIrrelevant(path: string, a: seq<string>, b: seq<string>)
    requires multiset(a) == multiset(b)
    ensures AnyIndicatorIn(path, a) == AnyIndicatorIn(path, b)
  {
    forall ind
      ensures ind in a <==> ind in b
    {
      calc {
        ind in a;
        ind in multiset(a);
        ind in multiset(b);
        ind in b;
      }
    }
  }

  /** Matching is plain substring containment: a path that embeds a
      developer-tool path anywhere (for example "nodejs-wrapper", which
      embeds "node") is itself classified as a developer tool. */
  lemma DevelopmentToolEmbedded(prefix: string, path: string, suffix: string)
    requires IsDevelopmentTool(path)
    ensures IsDevelopmentTool(prefix + path + suffix)
  {
    var ind :| ind in DevIndicators && Occurs(ind, path);
    var k: nat :| MatchAt(path, ind, k);
    var whole := prefix + path + suffix;
    assert whole[|prefix| + k..|prefix| + k + |ind|] == path[k..k + |ind|];
    assert MatchAt(whole, ind, |prefix| + k);
  }

  /** A pattern one of whose characters is missing from `text` cannot occur in it. */
  lemma MissingCharNoOccurrence(pattern: string, text: string, j: nat)
    requires j < |pattern| && pattern[j] !in text
    ensures !Occurs(pattern, text)
  {
    forall k: nat
      ensures !MatchAt(text, pattern, k)
    {
      if k + |pattern| <= |text| {
        assert text[k..k + |pattern|][j] == text[k + j];
      }
    }
  }

  /** A path in which no indicator occurs is not a developer tool. */
  lemma NoIndicatorNotDevelopmentTool(path: string)
    requires forall ind :: ind in DevIndicators ==> !Occurs(ind, path)
    ensures !IsDevelopmentTool(path)
  {
  }

  /** The shortest indicator has three characters, so no shorter path is a
      developer tool. */
  lemma ShortPathNotDevelopmentTool(path: string)
    requires |path| < 3
    ensures !IsDevelopmentTool(path)
  {
    forall ind | ind in DevIndicators
      ensures !Occurs(ind, path)
    {
      assert |ind| >= 3;
    }
    NoIndicatorNotDevelopmentTool(path);
  }

  /** Matching is case-sensitive: an upper-case spelling of a tool path is not
      a developer tool, whatever the source comment about case suggests. */
  lemma UpperCaseNodeIsNotDevelopmentTool(path: string)
    requires path == "/USR/BIN/NODE"
    ensures !IsDevelopmentTool(path)
  {
    forall ind | ind in DevIndicators
      ensures !Occurs(ind, path)
    {
      MissingCharNoOccurrence(ind, path, 0);
    }
    NoIndicatorNotDevelopmentTool(path);
  }

  /** Each indicator holds a character that "/bin/ls" lacks. */
  lemma ListLacksEveryIndicator(path: string)
    requires path == "/bin/ls"
    ensures forall ind :: ind in DevIndicators ==> !Occurs(ind, path)
  {
    MissingCharNoOccurrence("vscode", path, 0);
    MissingCharNoOccurrence("Code.app", path, 0);
    MissingCharNoOccurrence("cpptools", path, 0);
    MissingCharNoOccurrence("Terminal.app", path, 0);
    MissingCharNoOccurrence("iterm", path, 1);
    MissingCharNoOccurrence("clang", path, 0);
    MissingCharNoOccurrence("gcc", path, 0);
    MissingCharNoOccurrence("cmake", path, 0);
    MissingCharNoOccurrence("ninja", path, 3);
    MissingCharNoOccurrence("python", path, 0);
    MissingCharNoOccurrence("node", path, 1);
    MissingCharNoOccurrence("cargo", path, 0);
    MissingCharNoOccurrence("anaconda", path, 0);
    MissingCharNoOccurrence("miniconda", path, 0);
    MissingCharNoOccurrence("bin/git", path, 4);
    MissingCharNoOccurrence("bin/make", path, 4);
  }

  /** "/bin/ls" is not a developer tool. */
  lemma ListIsNotDevelopmentTool(path: string)
    requires path == "/bin/ls"
    ensures !IsDevelopmentTool(path)
  {
    ListLacksEveryIndicator(path);
    NoIndicatorNotDevelopmentTool(path);
  }

  /** A path holding one of the indicators is a developer tool. */
  lemma IndicatorMakesDevelopmentTool(path: string, ind: string, k: nat)
    requires ind in DevIndicators && MatchAt(path, ind, k)
    ensures IsDevelopmentTool(path)
  {
  }

  /** A pattern placed between two strings occurs right after the first. */
  lemma MatchBetween(prefix: string, pattern: string, suffix: string)
    ensures MatchAt(prefix + pattern + suffix, pattern, |prefix|)
  {
    assert (prefix + pattern + suffix)[|prefix|..|prefix| + |pattern|] == pattern;
  }

  /** A Node.js runtime path is a developer tool. */
  lemma NodePathIsDevelopmentTool(path: string)
    requires path == "/usr/local/bin/node"
    ensures IsDevelopmentTool(path)
  {
    MatchBetween("/usr/local/bin/", "node", "");
    assert path == "/usr/local/bin/" + "node" + "";
    assert "node" in DevIndicators && Occurs("node", path);
  }

  /** Any path through an application bundle named "Code.app" (the editor
      bundle "/Applications/Visual Studio Code.app/Contents/MacOS/Electron",
      say) is a developer tool. */
  lemma EditorBundleIsDevelopmentTool(bundleDir: string, inside: string)
    ensures IsDevelopmentTool(bundleDir + "Code.app" + inside)
  {
    MatchBetween(bundleDir, "Code.app", inside);
    IndicatorMakesDevelopmentTool(bundleDir + "Code.app" + inside, "Code.app", |bundleDir|);
  }
}
