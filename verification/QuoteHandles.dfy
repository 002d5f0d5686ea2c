/**
 The desktop's table of prepared quote files. A handle names one PDF on disk and, for a quote action, the
 proposal, account and contact it was prepared for.
 */
module QuoteHandles {
  import opened Wrappers

  /** `expiresAt` is the parsed expiry, `None` where the text is not a date. */
  datatype PreparedFile = PreparedFile(
    id: string,
    quoteId: string,
    filePath: string,
    targetPhone: string,
    accountId: Option<string>,
    proposalId: Option<string>,
    referenceNo: Option<string>,
    expiresAt: Option<int>
  )

  /** What a confirmed proposal is matched against. */
  datatype Query = Query(proposalId: string, accountId: string, quoteId: string, referenceNo: string, targetPhone: string, expiresAt: int)

  type Table = map<string, PreparedFile>

  predicate Live(f: PreparedFile, now: int) { f.expiresAt.Some? && f.expiresAt.value > now }

  /** Recovery drops every handle that is not live. */
  function Pruned(files: Table, now: int): Table {
    map id | id in files && Live(files[id], now) :: files[id]
  }

  predicate SameProposal(f: PreparedFile, g: PreparedFile) { f.proposalId.Some? && f.proposalId.value != "" && f.proposalId == g.proposalId }

  predicate Expired(f: PreparedFile, now: int) { f.expiresAt.Some? && f.expiresAt.value <= now }

  /** A new handle drops the expired ones and every other one of its proposal. */
  function Inserted(files: Table, f: PreparedFile, now: int): Table {
    (map id | id in files && !Expired(files[id], now) && !SameProposal(f, files[id]) :: files[id])[f.id := f]
  }

  predicate Matches(f: PreparedFile, q: Query, present: set<string>) {
    && f.proposalId == Some(q.proposalId)
    && f.accountId == Some(q.accountId)
    && f.quoteId == q.quoteId
    && f.referenceNo == Some(q.referenceNo)
    && f.targetPhone == q.targetPhone
    && f.expiresAt == Some(q.expiresAt)
    && f.filePath in present
  }

  /** Each entry is kept under its own id, and no proposal has two handles. */
  ghost predicate WellKept(files: Table) {
    && (forall id :: id in files ==> files[id].id == id)
    && forall a, b :: a in files && b in files && SameProposal(files[a], files[b]) ==> a == b
  }

  lemma InsertedWellKept(files: Table, f: PreparedFile, now: int)
    requires WellKept(files) && f.id !in files
    ensures WellKept(Inserted(files, f, now))
    ensures forall id :: id in Inserted(files, f, now) && SameProposal(f, Inserted(files, f, now)[id]) ==> id == f.id
  {
  }

  lemma PrunedWellKept(files: Table, now: int)
    requires WellKept(files)
    ensures WellKept(Pruned(files, now))
  {
  }

  /**
   What preparing a file does to a handle of the table: it stays exactly if its time is not over and the new
   file is not for its proposal. A handle whose expiry is not a date stays.
   */
  lemma InsertedMeaning(files: Table, f: PreparedFile, now: int, id: string)
    requires f.id !in files
    ensures Inserted(files, f, now)[f.id] == f
    ensures id in Inserted(files, f, now) && id != f.id ==> id in files && Inserted(files, f, now)[id] == files[id]
    ensures id in files ==>
      (id in Inserted(files, f, now) <==>
       match (files[id].expiresAt, f.proposalId)
       case (Some(time), Some(proposal)) => time > now && (proposal == "" || files[id].proposalId != Some(proposal))
       case (Some(time), None) => time > now
       case (None, Some(proposal)) => proposal == "" || files[id].proposalId != Some(proposal)
       case (None, None) => true)
  {
  }

  /** What recovery leaves of a handle: its own entry while its time runs, and nothing otherwise. */
  lemma PrunedMeaning(files: Table, now: int, id: string)
    ensures id in Pruned(files, now) ==> Pruned(files, now)[id] == files[id]
    ensures id in Pruned(files, now) <==>
            id in files && match files[id].expiresAt case Some(time) => time > now case None => false
  {
  }

  /** The file prepared under `id` for exactly what `q` asks for. */
  function FileFor(q: Query, id: string, path: string): PreparedFile {
    PreparedFile(id, q.quoteId, path, q.targetPhone, Some(q.accountId), Some(q.proposalId), Some(q.referenceNo), Some(q.expiresAt))
  }

  /** The handle `id` names the file asked for, and the file is still on disk. */
  predicate Answers(files: Table, id: string, q: Query, present: set<string>) {
    id in files && files[id].filePath in present && files[id] == FileFor(q, id, files[id].filePath)
  }

  ghost predicate OneAnswers(files: Table, q: Query, present: set<string>) {
    exists id :: Answers(files, id, q, present) && (forall other :: Answers(files, other, q, present) ==> other == id)
  }

  /** The handles that match, by id. */
  ghost function MatchIds(files: Table, q: Query, present: set<string>): set<string> {
    set id | id in files && Matches(files[id], q, present)
  }

  lemma MatchMeaning(files: Table, q: Query, present: set<string>, now: int)
    requires WellKept(files)
    ensures forall id :: id in MatchIds(Pruned(files, now), q, present) <==> q.expiresAt > now && Answers(files, id, q, present)
  {
    forall id
      ensures id in MatchIds(Pruned(files, now), q, present) <==> q.expiresAt > now && Answers(files, id, q, present)
    {
      PrunedMeaning(files, now, id);
    }
  }

  /** One match among the live handles is one answer to a query whose time still runs. */
  lemma OneMatchIff(files: Table, q: Query, present: set<string>, now: int)
    requires WellKept(files)
    ensures (exists id :: MatchIds(Pruned(files, now), q, present) == {id})
       <==> q.expiresAt > now && OneAnswers(files, q, present)
  {
    MatchMeaning(files, q, present, now);
    var ids := MatchIds(Pruned(files, now), q, present);
    forall id | Answers(files, id, q, present) && q.expiresAt > now
      ensures ids == {id} <==> forall other :: Answers(files, other, q, present) ==> other == id
    {
      hide *;
      assert id in ids;
    }
    forall id | ids == {id}
      ensures q.expiresAt > now && Answers(files, id, q, present)
    {
      hide *;
      assert id in ids;
    }
  }

  /** Recovery under way: `rest` is still to be visited. */
  ghost function HalfPruned(before: Table, rest: set<string>, now: int): Table {
    map id | id in before && (id in rest || Live(before[id], now)) :: before[id]
  }

  ghost function FoundSoFar(before: Table, rest: set<string>, q: Query, present: set<string>, now: int): set<string> {
    set id | id in before && id !in rest && Live(before[id], now) && Matches(before[id], q, present)
  }

  lemma Visit(before: Table, rest: set<string>, id: string, q: Query, present: set<string>, now: int)
    requires id in rest && rest <= before.Keys
    ensures HalfPruned(before, rest - {id}, now) == if Live(before[id], now) then HalfPruned(before, rest, now) else HalfPruned(before, rest, now) - {id}
    ensures FoundSoFar(before, rest - {id}, q, present, now)
         == FoundSoFar(before, rest, q, present, now) + if Live(before[id], now) && Matches(before[id], q, present) then {id} else {}
    ensures id !in FoundSoFar(before, rest, q, present, now)
  {
    hide Live, Matches;
  }

  lemma AllVisited(before: Table, q: Query, present: set<string>, now: int)
    ensures HalfPruned(before, {}, now) == Pruned(before, now)
    ensures FoundSoFar(before, {}, q, present, now) == MatchIds(Pruned(before, now), q, present)
  {
    hide Live, Matches;
  }

  /** The matches collected so far are of the handles `ids` of the table, as far as a second one. */
  ghost predicate Collected(matches: seq<PreparedFile>, ids: set<string>, files: Table) {
    && (forall m :: m in matches ==> m.id in ids && m.id in files && files[m.id] == m)
    && (|matches| == 0 ==> ids == {})
    && (|matches| == 1 ==> ids == {matches[0].id})
    && (|matches| > 1 ==> matches[0].id != matches[1].id)
  }

  lemma CollectMore(matches: seq<PreparedFile>, ids: set<string>, files: Table, m: PreparedFile)
    requires Collected(matches, ids, files) && m.id !in ids && m.id in files && files[m.id] == m
    ensures Collected(matches + [m], ids + {m.id}, files)
  {
  }

  /** What recovery returns, from all matches collected. */
  lemma CollectedDecides(matches: seq<PreparedFile>, files: Table, q: Query, present: set<string>, now: int)
    requires WellKept(files) && Collected(matches, MatchIds(Pruned(files, now), q, present), files)
    ensures |matches| == 1 <==> q.expiresAt > now && OneAnswers(files, q, present)
    ensures |matches| == 1 ==> matches[0] == FileFor(q, matches[0].id, matches[0].filePath) && Answers(files, matches[0].id, q, present)
    ensures |matches| == 1 ==> matches[0].id in Pruned(files, now) && Pruned(files, now)[matches[0].id] == matches[0]
    ensures |matches| == 1 ==> MatchIds(Pruned(files, now), q, present) == {matches[0].id}
    ensures |matches| != 1 ==> forall id :: MatchIds(Pruned(files, now), q, present) != {id}
  {
    OneMatchIff(files, q, present, now);
    MatchMeaning(files, q, present, now);
    hide WellKept, FileFor, OneAnswers, Matches, Live;
    if |matches| == 1 {
      assert matches[0] in matches && matches[0].id in MatchIds(Pruned(files, now), q, present);
    } else if |matches| > 1 {
      assert matches[0] in matches && matches[1] in matches;
    }
  }

  class PreparedQuoteFiles {
    var files: Table

    constructor ()
      ensures files == map[] && WellKept(files)
    {
      files := map[];
    }

    /** The table's part of preparing a file, in whatever order the entries are visited. */
    method Insert(f: PreparedFile, now: int)
      requires WellKept(files) && f.id !in files
      modifies this
      ensures files == Inserted(old(files), f, now)
      ensures WellKept(files)
      ensures forall id :: id in files && SameProposal(f, files[id]) ==> id == f.id
    {
      InsertedWellKept(files, f, now);
      hide WellKept, Expired, SameProposal;
      ghost var before := files;
      var rest := files.Keys;
      while rest != {}
        invariant rest <= files.Keys
        invariant files == map id | id in before && (id in rest || (!Expired(before[id], now) && !SameProposal(f, before[id]))) :: before[id]
        decreases rest
      {
        var id :| id in rest;
        rest := rest - {id};
        if Expired(files[id], now) || SameProposal(f, files[id]) {
          files := files - {id};
        }
      }
      files := files[f.id := f];
    }

    /**
     A handle is recovered exactly if the proposal's time still runs and one handle alone answers it; what is
     not live is dropped on the way.
     */
    method Recover(q: Query, present: set<string>, now: int) returns (recovered: Option<PreparedFile>)
      requires WellKept(files)
      modifies this
      ensures files == Pruned(old(files), now) && WellKept(files)
      ensures recovered.Some? ==> recovered.value.id in files && files[recovered.value.id] == recovered.value
                                  && MatchIds(files, q, present) == {recovered.value.id}
      ensures recovered.None? ==> forall id :: MatchIds(files, q, present) != {id}
      ensures recovered.Some? ==> q.expiresAt > now && recovered.value == FileFor(q, recovered.value.id, recovered.value.filePath)
                                  && Answers(old(files), recovered.value.id, q, present)
      ensures recovered.Some? <==> q.expiresAt > now && OneAnswers(old(files), q, present)
    {
      PrunedWellKept(files, now);
      assert forall id :: id in files ==> files[id].id == id;
      ghost var before := files;
      assert HalfPruned(before, before.Keys, now) == before && FoundSoFar(before, before.Keys, q, present, now) == {};
      AllVisited(before, q, present, now);
      var matches: seq<PreparedFile> := [];
      var rest := files.Keys;
      assert Collected(matches, {}, before);
      hide *;
      while rest != {}
        invariant rest <= before.Keys && rest <= files.Keys
        invariant files == HalfPruned(before, rest, now)
        invariant forall id :: id in files ==> id in before && files[id] == before[id]
        invariant Collected(matches, FoundSoFar(before, rest, q, present, now), before)
        decreases rest
      {
        var id :| id in rest;
        Visit(before, rest, id, q, present, now);
        ghost var found := FoundSoFar(before, rest, q, present, now);
        rest := rest - {id};
        var prepared := files[id];
        if !Live(prepared, now) {
          files := files - {id};
          continue;
        }
        if Matches(prepared, q, present) {
          CollectMore(matches, found, before, prepared);
          matches := matches + [prepared];
        }
      }
      CollectedDecides(matches, before, q, present, now);
      return if |matches| == 1 then Some(matches[0]) else None;
    }

    /** Discarding, or the start of a drag, uses the handle up. */
    method Remove(id: string)
      requires WellKept(files)
      modifies this
      ensures files == old(files) - {id} && WellKept(files)
    {
      files := files - {id};
    }
  }
}
