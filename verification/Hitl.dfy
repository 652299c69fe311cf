/** The approval gate of `src/plugins/hitl.rs`: which tool calls are gated, and what the audit log says about them. */
module Hitl {
  import opened Common
  import opened Text

  // -------------------------------------------------------------- keywords

  function Lower(b: int): int { if 65 <= b <= 90 then b + 32 else b }

  /** `eq_ignore_ascii_case` of one window of the name with a keyword. */
  predicate MatchesAt(name: Bytes, i: nat, keyword: string) {
    i + |keyword| <= |name| && forall j :: 0 <= j < |keyword| ==> Lower(name[i + j]) == Lower(keyword[j] as int)
  }

  /** The name contains the keyword, in whatever case. */
  predicate Has(name: Bytes, keyword: string) { exists i: nat :: i <= |name| && MatchesAt(name, i, keyword) }

  /** `contains_ignore_ascii_case`: one window after the other. */
  method ContainsIgnoreAsciiCase(name: Bytes, keyword: string) returns (found: bool)
    requires keyword != ""
    ensures found <==> Has(name, keyword)
  {
    var i := 0;
    while i + |keyword| <= |name|
      invariant i <= |name| + 1
      invariant forall k: nat :: k < i ==> !MatchesAt(name, k, keyword)
    {
      var same := true;
      for j := 0 to |keyword|
        invariant same <==> forall k :: 0 <= k < j ==> Lower(name[i + k]) == Lower(keyword[k] as int)
      {
        if Lower(name[i + j]) != Lower(keyword[j] as int) { same := false; }
      }
      if same {
        assert MatchesAt(name, i, keyword);
        return true;
      }
      i := i + 1;
    }
    return false;
  }

  const SHELL := ["shell", "exec", "bash", "run_command", "terminal"]
  const FILE := ["write", "edit", "delete", "remove", "rm_", "mv_", "move", "create_file"]
  const API := ["http_post", "http_put", "http_delete", "api_write", "post_", "put_", "delete_"]
  const HIGH_KEYWORDS := [
    "shell", "exec", "bash", "run_command", "terminal",
    "write", "edit", "delete", "remove", "rm_", "mv_", "move", "create_file",
    "http_post", "http_put", "http_delete", "api_write", "post_", "put_", "delete_"
  ]

  predicate HasAny(name: Bytes, keywords: seq<string>) { exists i :: 0 <= i < |keywords| && Has(name, keywords[i]) }

  datatype Risk = Low | High

  datatype Action = ShellExec | FileWrite | ExternalApiWrite

  function ClassifyToolCall(name: Bytes): Risk { if HasAny(name, HIGH_KEYWORDS) then High else Low }

  /** The first keyword group that matches names the action. */
  function ClassifyAction(name: Bytes): Option<Action> {
    if HasAny(name, SHELL) then Some(ShellExec)
    else if HasAny(name, FILE) then Some(FileWrite)
    else if HasAny(name, API) then Some(ExternalApiWrite)
    else None
  }

  lemma HasAnyOfTwo(name: Bytes, a: seq<string>, b: seq<string>)
    ensures HasAny(name, a + b) <==> HasAny(name, a) || HasAny(name, b)
  {
    hide Has;
    if HasAny(name, a) {
      var i :| 0 <= i < |a| && Has(name, a[i]);
      assert (a + b)[i] == a[i];
    }
    if HasAny(name, b) {
      var i :| 0 <= i < |b| && Has(name, b[i]);
      assert (a + b)[|a| + i] == b[i];
    }
  }

  /** The two keyword tables agree: a name is high-risk if and only if it has an action category. */
  lemma HighRiskIffAction(name: Bytes)
    ensures ClassifyToolCall(name) == High <==> ClassifyAction(name).Some?
  {
    hide HasAny;
    assert HIGH_KEYWORDS == SHELL + FILE + API;
    HasAnyOfTwo(name, SHELL + FILE, API);
    HasAnyOfTwo(name, SHELL, FILE);
  }

  lemma HasPart(name: Bytes, whole: string, part: string, at: nat)
    requires Has(name, whole) && at + |part| <= |whole| && whole[at..at + |part|] == part
    ensures Has(name, part)
  {
    var i: nat :| i <= |name| && MatchesAt(name, i, whole);
    forall j | 0 <= j < |part| ensures Lower(name[i + at + j]) == Lower(part[j] as int) {
      assert whole[at..at + |part|][j] == whole[at + j];
    }
    assert MatchesAt(name, i + at, part);
  }

  lemma KeywordIn(name: Bytes, keywords: seq<string>, i: nat)
    requires i < |keywords| && Has(name, keywords[i])
    ensures HasAny(name, keywords)
  {
  }

  /**
    A name with an HTTP delete, an API write or a `delete_` is a file write already, so it is never an external one.
   */
  lemma ShadowedKeywords(name: Bytes)
    requires Has(name, "http_delete") || Has(name, "api_write") || Has(name, "delete_")
    ensures HasAny(name, FILE)
  {
    hide Has, HasAny;
    if Has(name, "http_delete") {
      HasPart(name, "http_delete", "delete", 5);
      KeywordIn(name, FILE, 2);
    } else if Has(name, "api_write") {
      HasPart(name, "api_write", "write", 4);
      KeywordIn(name, FILE, 0);
    } else {
      HasPart(name, "delete_", "delete", 0);
      KeywordIn(name, FILE, 2);
    }
  }

  /** Only four of the seven external keywords can ever decide. */
  lemma ExternalWriteExactly(name: Bytes)
    ensures ClassifyAction(name) == Some(ExternalApiWrite) <==>
              && !HasAny(name, SHELL) && !HasAny(name, FILE)
              && (Has(name, "http_post") || Has(name, "http_put") || Has(name, "post_") || Has(name, "put_"))
  {
    hide Has, SHELL, FILE;
    if Has(name, "http_delete") || Has(name, "api_write") || Has(name, "delete_") { ShadowedKeywords(name); }
    ApiKeywords(name);
    hide HasAny;
  }

  lemma ApiKeywords(name: Bytes)
    ensures HasAny(name, API) <==>
              || Has(name, "http_post") || Has(name, "http_put") || Has(name, "http_delete") || Has(name, "api_write")
              || Has(name, "post_") || Has(name, "put_") || Has(name, "delete_")
  {
    hide Has;
    if Has(name, "http_post") { KeywordIn(name, API, 0); }
    if Has(name, "http_put") { KeywordIn(name, API, 1); }
    if Has(name, "http_delete") { KeywordIn(name, API, 2); }
    if Has(name, "api_write") { KeywordIn(name, API, 3); }
    if Has(name, "post_") { KeywordIn(name, API, 4); }
    if Has(name, "put_") { KeywordIn(name, API, 5); }
    if Has(name, "delete_") { KeywordIn(name, API, 6); }
  }

  // ------------------------------------------------------------------ gate

  datatype Block =
    | ToolCall(id: string, name: Bytes, arguments: string)
    | ToolResult(toolCallId: string, output: string)
    | Other(content: string)

  datatype Status = Approved | Denied

  datatype AuditEntry = AuditEntry(action: Action, approver: Option<string>, status: Status, timestamp: nat)

  datatype Error = LogFull

  /** One block, and what the approval channel and the clock answer should it be gated. */
  datatype Call = Call(block: Block, decision: Status, approver: Option<string>, now: nat)

  predicate Gated(c: Call) { c.block.ToolCall? && ClassifyToolCall(c.block.name) == High }

  /** The audit entry of a gated call. */
  function EntryOf(c: Call): AuditEntry
    requires Gated(c)
  {
    HighRiskIffAction(c.block.name);
    AuditEntry(ClassifyAction(c.block.name).value, c.approver, c.decision, c.now)
  }

  /** What the hook makes of a block when the log holds `used` entries. */
  function Ruling(max: nat, used: nat, c: Call): Result<Block, Error> {
    if !Gated(c) then Ok(c.block)
    else if used >= max then Err(LogFull)
    else if c.decision == Approved then Ok(c.block)
    else Ok(ToolResult(c.block.id, "denied by approver"))
  }

  class HitlPlugin {
    const maxAuditEntries: nat
    var audit: seq<AuditEntry>

    constructor (maxAuditEntries: nat)
      ensures audit == [] && this.maxAuditEntries == maxAuditEntries
    {
      this.maxAuditEntries, audit := maxAuditEntries, [];
    }

    method RecordAudit(action: Action, approver: Option<string>, status: Status, now: nat)
      returns (r: Result<(), Error>)
      modifies this
      ensures r.Ok? <==> old(|audit|) < maxAuditEntries
      ensures audit == if r.Ok? then old(audit) + [AuditEntry(action, approver, status, now)] else old(audit)
    {
      if |audit| >= maxAuditEntries {
        return Err(LogFull);
      }
      audit := audit + [AuditEntry(action, approver, status, now)];
      r := Ok(());
    }

    /** Gated calls wait for the channel's decision; what cannot be recorded is not delivered. */
    method OnStreamChunk(c: Call) returns (r: Result<Block, Error>)
      modifies this
      ensures r == Ruling(maxAuditEntries, |old(audit)|, c)
      ensures audit == if Gated(c) && r.Ok? then old(audit) + [EntryOf(c)] else old(audit)
    {
      hide ClassifyToolCall, ClassifyAction;
      var chunk := c.block;
      if !chunk.ToolCall? {
        return Ok(chunk);
      }
      if ClassifyToolCall(chunk.name) == Low {
        return Ok(chunk);
      }
      HighRiskIffAction(chunk.name);
      var action := ClassifyAction(chunk.name).value;
      match c.decision {
        case Approved =>
          var recorded := RecordAudit(action, c.approver, Approved, c.now);
          r := if recorded.Ok? then Ok(chunk) else Err(LogFull);
        case Denied =>
          var recorded := RecordAudit(action, c.approver, Denied, c.now);
          if recorded.Err? {
            return Err(LogFull);
          }
          r := Ok(ToolResult(chunk.id, "denied by approver"));
      }
    }
  }

  // ------------------------------------------------------------------ runs

  /** The audit log after any sequence of blocks. */
  function AuditOf(max: nat, calls: seq<Call>): seq<AuditEntry> {
    if calls == [] then []
    else
      var before, c := AuditOf(max, calls[..|calls| - 1]), calls[|calls| - 1];
      if Gated(c) && Ruling(max, |before|, c).Ok? then before + [EntryOf(c)] else before
  }

  /** The gated calls that reached the consumer unchanged, in order. */
  function Delivered(max: nat, calls: seq<Call>): (d: seq<Call>)
    ensures forall i :: 0 <= i < |d| ==> Gated(d[i])
  {
    if calls == [] then []
    else
      var front, c := calls[..|calls| - 1], calls[|calls| - 1];
      Delivered(max, front) + if Gated(c) && Ruling(max, |AuditOf(max, front)|, c) == Ok(c.block) then [c] else []
  }

  /** All gated calls, in order. */
  function GatedCalls(calls: seq<Call>): (g: seq<Call>)
    ensures forall i :: 0 <= i < |g| ==> Gated(g[i])
  {
    if calls == [] then []
    else GatedCalls(calls[..|calls| - 1]) + if Gated(calls[|calls| - 1]) then [calls[|calls| - 1]] else []
  }

  function Entries(calls: seq<Call>): seq<AuditEntry>
    requires forall i :: 0 <= i < |calls| ==> Gated(calls[i])
  {
    seq(|calls|, i requires 0 <= i < |calls| => EntryOf(calls[i]))
  }

  function ApprovedOnly(audit: seq<AuditEntry>): seq<AuditEntry> {
    if audit == [] then []
    else
      ApprovedOnly(audit[..|audit| - 1]) + if audit[|audit| - 1].status == Approved then [audit[|audit| - 1]] else []
  }

  function First(calls: seq<Call>, max: nat): seq<Call> { if |calls| <= max then calls else calls[..max] }

  /** The log holds the rulings on the first gated calls, up to its cap, in order; nothing else is ever in it. */
  lemma {:induction false} AuditIsFirstRulings(max: nat, calls: seq<Call>)
    ensures AuditOf(max, calls) == Entries(First(GatedCalls(calls), max))
  {
    hide Gated, EntryOf;
    if calls != [] {
      var front, c := calls[..|calls| - 1], calls[|calls| - 1];
      AuditIsFirstRulings(max, front);
      if Gated(c) && |GatedCalls(front)| < max {
        assert First(GatedCalls(calls), max) == First(GatedCalls(front), max) + [c];
        assert Entries(First(GatedCalls(front), max) + [c]) == Entries(First(GatedCalls(front), max)) + [EntryOf(c)];
      }
    }
  }

  /** Entries are only ever appended, and never beyond the cap. */
  lemma {:induction false} AuditAppendOnly(max: nat, calls: seq<Call>, n: nat)
    requires n <= |calls|
    ensures AuditOf(max, calls[..n]) <= AuditOf(max, calls)
    ensures |AuditOf(max, calls)| <= max
  {
    hide Gated, EntryOf;
    if calls != [] {
      var front := calls[..|calls| - 1];
      if n < |calls| {
        AuditAppendOnly(max, front, n);
        assert front[..n] == calls[..n];
      } else {
        AuditAppendOnly(max, front, |front|);
        assert calls[..n] == calls;
      }
    }
  }

  lemma ApprovedSnoc(audit: seq<AuditEntry>, e: AuditEntry)
    ensures ApprovedOnly(audit + [e]) == ApprovedOnly(audit) + if e.status == Approved then [e] else []
  {
    assert (audit + [e])[..|audit|] == audit;
  }

  lemma DeliveredIffApproved(max: nat, used: nat, c: Call)
    requires Gated(c)
    ensures Ruling(max, used, c) == Ok(c.block) <==> used < max && c.decision == Approved
    ensures Ruling(max, used, c).Ok? <==> used < max
    ensures used < max && c.decision == Denied ==>
              Ruling(max, used, c) == Ok(ToolResult(c.block.id, "denied by approver"))
    ensures EntryOf(c).status == c.decision
  {
  }

  /**
    The approved entries of the log are, one for one and in order, those of the gated calls that were delivered: no
    high-risk call reaches the consumer without an approval of its own on record.
   */
  lemma {:induction false} DeliveredCallsAreApproved(max: nat, calls: seq<Call>)
    ensures ApprovedOnly(AuditOf(max, calls)) == Entries(Delivered(max, calls))
  {
    hide Gated, EntryOf, Ruling;
    if calls != [] {
      var front, c := calls[..|calls| - 1], calls[|calls| - 1];
      DeliveredCallsAreApproved(max, front);
      if Gated(c) {
        DeliveredIffApproved(max, |AuditOf(max, front)|, c);
        ApprovedSnoc(AuditOf(max, front), EntryOf(c));
        assert Entries(Delivered(max, front) + [c]) == Entries(Delivered(max, front)) + [EntryOf(c)];
      }
    }
  }
}
