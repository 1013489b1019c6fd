/** How applied and undone archive suggestions show in search results. */
module SearchUndo {
  import opened Wrappers
  import opened Sorting
  import K = Knowledge
  import S = Search
  import opened Evolution
  import opened EvolutionRuns

  /** The vault's documents with the archived flags the evolution engine keeps. */
  function WithFlags(docs: seq<K.Doc>, archived: map<Id, bool>): seq<K.Doc> {
    seq(|docs|, i requires 0 <= i < |docs| =>
      if docs[i].id in archived then docs[i].(archived := archived[docs[i].id]) else docs[i])
  }

  /**
   * After any run, as long as an archive suggestion is monitored, its document is in no result of any query: whatever
   * else has happened since the apply.
   */
  lemma MonitoredArchiveHides(docs: seq<K.Doc>, s: State, ops: seq<Op>, i: nat, q: S.Query, now: real)
    requires Inv(s) && i < |Run(s, ops).suggestions|
    requires var x := Run(s, ops).suggestions[i];
      x.stage.Monitored? && x.target.ArchiveKnowledge? && x.target.docId in Run(s, ops).archived
    ensures var t := Run(s, ops);
      forall d :: d in S.Results(WithFlags(docs, t.archived), q, now) ==> d.id != t.suggestions[i].target.docId
  {
    RunKeepsInv(s, ops);
    ArchivedIsHidden(docs, Run(s, ops).archived, Run(s, ops).suggestions[i].target.docId, q, now);
  }

  lemma ArchivedIsHidden(docs: seq<K.Doc>, archived: map<Id, bool>, id: Id, q: S.Query, now: real)
    requires id in archived && archived[id]
    ensures forall d :: d in S.Results(WithFlags(docs, archived), q, now) ==> d.id != id
  {
    var flagged := WithFlags(docs, archived);
    forall d | d in S.Results(flagged, q, now) ensures d.id != id {
      assert d in S.Ranking(flagged, q, now);
      SortKeepsMembers(Filter(flagged, S.Matches(q, now)), S.Worst(q, now));
      assert d in flagged && !d.archived;
    }
  }

  /**
   * Applying an approved archive suggestion makes it monitored, so its document disappears from every result at once.
   */
  lemma AppliedArchiveHides(docs: seq<K.Doc>, s: State, id: Id, q: S.Query, now: real)
    requires InStage(s, id, Approved)
    requires var target := s.suggestions[Position(s.suggestions, id).value].target;
      target.ArchiveKnowledge? && target.docId in s.archived
    ensures var target := s.suggestions[Position(s.suggestions, id).value].target;
      forall d :: d in S.Results(WithFlags(docs, Step(s, Apply(id)).archived), q, now) ==> d.id != target.docId
  {
    var target := s.suggestions[Position(s.suggestions, id).value].target;
    ArchivedIsHidden(docs, Step(s, Apply(id)).archived, target.docId, q, now);
  }

  /** Once all of a run's archives and merges are undone, in any order, every query finds what it found before. */
  lemma UndoneArchivesRestoreResults(docs: seq<K.Doc>, s: State, ops: seq<Op>, q: S.Query, now: real)
    requires Inv(s) && AllQuiet(s, ops) && SameClaims(s.suggestions, Run(s, ops).suggestions)
    ensures S.Results(WithFlags(docs, Run(s, ops).archived), q, now) == S.Results(WithFlags(docs, s.archived), q, now)
  {
    UndoingInAnyOrderRestores(s, ops);
  }
}
