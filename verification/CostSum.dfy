/** The sum over all buckets of the breakdown. */
module CostSum {
  import opened Common
  import opened Cost
  import opened MapTotals

  function Plus(e: CostEntry, d: CostEntry): CostEntry {
    CostEntry(e.prompt + d.prompt, e.completion + d.completion, e.cacheRead + d.cacheRead,
              e.cacheWrite + d.cacheWrite, e.spent + d.spent, e.turns + d.turns)
  }

  function PromptIn(e: CostEntry): nat { e.prompt }
  function CompletionIn(e: CostEntry): nat { e.completion }
  function ReadIn(e: CostEntry): nat { e.cacheRead }
  function WriteIn(e: CostEntry): nat { e.cacheWrite }
  function SpentIn(e: CostEntry): nat { e.spent }
  function TurnsIn(e: CostEntry): nat { e.turns }

  /** Field by field, the sum over all buckets. */
  ghost function SumOf(m: map<string, CostEntry>): CostEntry {
    CostEntry(Total(m, PromptIn), Total(m, CompletionIn), Total(m, ReadIn), Total(m, WriteIn), Total(m, SpentIn),
        Total(m, TurnsIn))
  }

  lemma FieldUpdate(m: map<string, CostEntry>, key: string, e: CostEntry, f: CostEntry -> nat)
    requires f(ZERO) == 0
    ensures Total(m[key := e], f) == Total(m - {key}, f) + f(e)
    ensures Total(m, f) == Total(m - {key}, f) + f(Bucket(m, key))
  {
    TotalUpdate(m, key, e, f);
  }

  lemma SumUpdate(m: map<string, CostEntry>, key: string, e: CostEntry)
    ensures SumOf(m[key := e]) == Plus(SumOf(m - {key}), e)
    ensures SumOf(m) == Plus(SumOf(m - {key}), Bucket(m, key))
  {
    hide Total, Bucket;
    FieldUpdate(m, key, e, PromptIn);
    FieldUpdate(m, key, e, CompletionIn);
    FieldUpdate(m, key, e, ReadIn);
    FieldUpdate(m, key, e, WriteIn);
    FieldUpdate(m, key, e, SpentIn);
    FieldUpdate(m, key, e, TurnsIn);
  }

  predicate Below(e: CostEntry, d: CostEntry) {
    && e.prompt <= d.prompt && e.completion <= d.completion && e.cacheRead <= d.cacheRead
    && e.cacheWrite <= d.cacheWrite && e.spent <= d.spent && e.turns <= d.turns
  }

  lemma BucketBelow(m: map<string, CostEntry>, key: string)
    ensures Below(Bucket(m, key), SumOf(m))
  {
    SumUpdate(m, key, ZERO);
  }
}
