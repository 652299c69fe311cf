/** Which tool names are gated, letter by letter and keyword by keyword. */
module HitlNames {
  import opened Common
  import opened Text
  import opened Hitl

  /** The same byte, or the upper and the lower case of one ASCII letter. */
  predicate SameLetter(a: int, b: int) {
    a == b || ('A' as int <= a <= 'Z' as int && b == a + 32) || ('A' as int <= b <= 'Z' as int && a == b + 32)
  }

  lemma LowerSame(a: int, b: int)
    ensures Lower(a) == Lower(b) <==> SameLetter(a, b)
  {
  }

  /** The keyword stands somewhere in the name, each letter in either case and every other byte as it is. */
  ghost predicate Contains(name: Bytes, keyword: string) { exists at: nat :: StandsAt(name, at, keyword) }

  predicate StandsAt(name: Bytes, at: nat, keyword: string) {
    at + |keyword| <= |name| && forall j :: 0 <= j < |keyword| ==> SameLetter(name[at + j], keyword[j] as int)
  }

  lemma MatchesIffStands(name: Bytes, at: nat, keyword: string)
    ensures MatchesAt(name, at, keyword) <==> StandsAt(name, at, keyword)
  {
    hide Lower, SameLetter;
    if at + |keyword| <= |name| {
      forall j | 0 <= j < |keyword|
        ensures Lower(name[at + j]) == Lower(keyword[j] as int) <==> SameLetter(name[at + j], keyword[j] as int)
      {
        LowerSame(name[at + j], keyword[j] as int);
      }
    }
  }

  lemma HasIffContains(name: Bytes, keyword: string)
    ensures Has(name, keyword) <==> Contains(name, keyword)
  {
    hide MatchesAt, StandsAt;
    forall at: nat ensures MatchesAt(name, at, keyword) <==> StandsAt(name, at, keyword) {
      MatchesIffStands(name, at, keyword);
    }
    if at: nat :| StandsAt(name, at, keyword) { StandsInside(name, at, keyword); }
  }

  lemma StandsInside(name: Bytes, at: nat, keyword: string)
    requires StandsAt(name, at, keyword)
    ensures at <= |name|
  {
  }

  // ----------------------------------------------------------------- case

  /** Two names that differ at most in the case of ASCII letters. */
  predicate SameButCase(a: Bytes, b: Bytes) {
    |a| == |b| && forall i :: 0 <= i < |a| ==> SameLetter(a[i], b[i])
  }

  lemma MatchesInBoth(a: Bytes, b: Bytes, at: nat, keyword: string)
    requires SameButCase(a, b)
    ensures MatchesAt(a, at, keyword) <==> MatchesAt(b, at, keyword)
  {
    forall i | 0 <= i < |a| ensures Lower(a[i]) == Lower(b[i]) { LowerSame(a[i], b[i]); }
    hide Lower;
  }

  lemma HasInBoth(a: Bytes, b: Bytes, keyword: string)
    requires SameButCase(a, b)
    ensures Has(a, keyword) <==> Has(b, keyword)
  {
    hide MatchesAt, SameLetter;
    forall at: nat ensures MatchesAt(a, at, keyword) <==> MatchesAt(b, at, keyword) {
      MatchesInBoth(a, b, at, keyword);
    }
  }

  lemma HasAnyInBoth(a: Bytes, b: Bytes, keywords: seq<string>)
    requires SameButCase(a, b)
    ensures HasAny(a, keywords) <==> HasAny(b, keywords)
  {
    hide Has, SameButCase;
    forall i | 0 <= i < |keywords| ensures Has(a, keywords[i]) <==> Has(b, keywords[i]) {
      HasInBoth(a, b, keywords[i]);
    }
  }

  /** Changing the case of letters in a tool's name changes neither its risk nor its category. */
  lemma CaseNeverMatters(a: Bytes, b: Bytes)
    requires SameButCase(a, b)
    ensures ClassifyToolCall(a) == ClassifyToolCall(b) && ClassifyAction(a) == ClassifyAction(b)
  {
    hide HasAny, SameButCase;
    HasAnyInBoth(a, b, HIGH_KEYWORDS);
    HasAnyInBoth(a, b, SHELL);
    HasAnyInBoth(a, b, FILE);
    HasAnyInBoth(a, b, API);
  }

  // ------------------------------------------------------------ categories

  ghost predicate ShellName(name: Bytes) {
    || Contains(name, "shell") || Contains(name, "exec") || Contains(name, "bash") || Contains(name, "run_command")
    || Contains(name, "terminal")
  }

  ghost predicate FileName(name: Bytes) {
    || Contains(name, "write") || Contains(name, "edit") || Contains(name, "delete") || Contains(name, "remove")
    || Contains(name, "rm_") || Contains(name, "mv_") || Contains(name, "move") || Contains(name, "create_file")
  }

  ghost predicate PostName(name: Bytes) {
    || Contains(name, "http_post") || Contains(name, "http_put") || Contains(name, "post_") || Contains(name, "put_")
  }

  lemma AnyContained(name: Bytes, keywords: seq<string>)
    ensures HasAny(name, keywords) <==> exists i :: 0 <= i < |keywords| && Contains(name, keywords[i])
  {
    hide Has, Contains;
    forall i | 0 <= i < |keywords| ensures Has(name, keywords[i]) <==> Contains(name, keywords[i]) {
      HasIffContains(name, keywords[i]);
    }
  }

  lemma ShellKeywords(name: Bytes)
    ensures HasAny(name, SHELL) <==> ShellName(name)
  {
    hide Has, HasAny, Contains;
    AnyContained(name, SHELL);
    if ShellName(name) {
      var i := if Contains(name, "shell") then 0 else if Contains(name, "exec") then 1
               else if Contains(name, "bash") then 2 else if Contains(name, "run_command") then 3 else 4;
      assert Contains(name, SHELL[i]);
    }
  }

  lemma FileKeywords(name: Bytes)
    ensures HasAny(name, FILE) <==> FileName(name)
  {
    hide Has, HasAny, Contains;
    AnyContained(name, FILE);
    if FileName(name) {
      var i := if Contains(name, "write") then 0 else if Contains(name, "edit") then 1
               else if Contains(name, "delete") then 2 else if Contains(name, "remove") then 3
               else if Contains(name, "rm_") then 4 else if Contains(name, "mv_") then 5
               else if Contains(name, "move") then 6 else 7;
      assert Contains(name, FILE[i]);
    }
  }

  /** The category of every name: shell before file, file before external, and no category is low risk. */
  lemma CategoryOf(name: Bytes)
    ensures ClassifyAction(name) == Some(ShellExec) <==> ShellName(name)
    ensures ClassifyAction(name) == Some(FileWrite) <==> FileName(name) && !ShellName(name)
    ensures ClassifyAction(name) == Some(ExternalApiWrite) <==>
              PostName(name) && !FileName(name) && !ShellName(name)
    ensures ClassifyToolCall(name) == Low <==> !ShellName(name) && !FileName(name) && !PostName(name)
  {
    ShellKeywords(name);
    FileKeywords(name);
    ExternalWriteExactly(name);
    HighRiskIffAction(name);
    HasIffContains(name, "http_post");
    HasIffContains(name, "http_put");
    HasIffContains(name, "post_");
    HasIffContains(name, "put_");
    hide Has, HasAny, Contains, ShellName, FileName, ClassifyToolCall, HIGH_KEYWORDS;
  }
}
