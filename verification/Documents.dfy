/**
 * Publication of an uploaded document: its chunks and its `ready` status appear together or not
 * at all, whatever step of the background job fails and wherever the process dies.
 */
module Documents {
  import opened Wrappers
  import opened Bytes
  import Chunker
  import ChunkerLaws
  import ChunkerRunes
  import Utf8

  datatype Status = Processing | Ready | Error

  type Vector = seq<real>

  datatype Row = Row(index: nat, content: seq<Byte>, embedding: Option<Vector>)

  datatype Step = Embed | Begin | Insert(index: nat) | SetReady | Commit | SetError

  /** What a call to the embedder or the database does; a crash ends the process before its effect. */
  datatype Outcome = Succeeds | Fails | Crashes

  function GroupsOf(text: seq<Byte>): seq<Chunker.Group> {
    Chunker.Groups(Chunker.Paragraphs(text), Chunker.SizeOf(0), Chunker.OverlapOf(0))
  }

  /** The chunks of a document, with the default size and overlap. */
  function ChunksOf(text: seq<Byte>): seq<seq<Byte>> {
    Chunker.Texts(GroupsOf(text), Chunker.OverlapOf(0))
  }

  function EmbeddingOf(embeddings: Option<seq<Vector>>, i: nat): Option<Vector> {
    if embeddings.Some? && i < |embeddings.value| then Some(embeddings.value[i]) else None
  }

  /** The rows of a published document. */
  function RowsOf(chunks: seq<seq<Byte>>, embeddings: Option<seq<Vector>>): seq<Row> {
    seq(|chunks|, i requires 0 <= i < |chunks| => Row(i, chunks[i], EmbeddingOf(embeddings, i)))
  }

  /** The steps of a job with `n` chunks, in order; without an embedder it starts at the transaction. */
  function Steps(n: nat, embedder: bool): seq<Step> {
    (if embedder then [Embed] else []) + [Begin] + seq(n, i requires 0 <= i < n => Insert(i)) + [SetReady, Commit]
  }

  /** How many steps succeed before one does not; all of them if none does. */
  function Done(steps: seq<Step>, world: Step -> Outcome): (k: nat)
    ensures k <= |steps| && forall j :: 0 <= j < k ==> world(steps[j]).Succeeds?
    ensures k < |steps| ==> !world(steps[k]).Succeeds?
  {
    if steps == [] || !world(steps[0]).Succeeds? then 0 else 1 + Done(steps[1..], world)
  }

  /** One document as a connection sees it. */
  datatype View = View(status: Status, chunkCount: nat, rows: seq<Row>)

  const UPLOADED := View(Processing, 0, [])

  function Published(chunks: seq<seq<Byte>>, embeddings: Option<seq<Vector>>): View {
    View(Ready, |chunks|, RowsOf(chunks, embeddings))
  }

  /**
   * The database: what is committed, which every connection sees, and what the open transaction
   * alone sees. `seen` is every committed state there has been, one for each statement.
   */
  class Database {
    var committed: View
    var open: Option<View>
    ghost var seen: seq<View>

    constructor ()
      ensures committed == UPLOADED && open == None && seen == [UPLOADED]
    {
      committed, open, seen := UPLOADED, None, [UPLOADED];
    }

    method BeginTx(ok: bool)
      requires open.None?
      modifies this
      ensures open == (if ok then Some(committed) else None) && committed == old(committed)
      ensures seen == old(seen) + [committed]
    {
      open := if ok then Some(committed) else None;
      seen := seen + [committed];
    }

    method InsertChunk(row: Row, ok: bool)
      requires open.Some?
      modifies this
      ensures open == (if ok then Some(old(open).value.(rows := old(open).value.rows + [row])) else old(open))
      ensures committed == old(committed) && seen == old(seen) + [committed]
    {
      if ok {
        open := Some(open.value.(rows := open.value.rows + [row]));
      }
      seen := seen + [committed];
    }

    method MarkReady(count: nat, ok: bool)
      requires open.Some?
      modifies this
      ensures open == (if ok then Some(old(open).value.(status := Ready, chunkCount := count)) else old(open))
      ensures committed == old(committed) && seen == old(seen) + [committed]
    {
      if ok {
        open := Some(open.value.(status := Ready, chunkCount := count));
      }
      seen := seen + [committed];
    }

    /** A commit that fails has committed nothing. */
    method CommitTx(ok: bool)
      requires open.Some?
      modifies this
      ensures open == None && committed == (if ok then old(open).value else old(committed))
      ensures seen == old(seen) + [committed]
    {
      if ok {
        committed := open.value;
      }
      open, seen := None, seen + [committed];
    }

    /** The deferred rollback, or the server's when the process has died; nothing after a commit. */
    method Rollback()
      modifies this
      ensures open == None && committed == old(committed) && seen == old(seen) + [committed]
    {
      open, seen := None, seen + [committed];
    }

    /** The failure mark, on a connection of its own: visible at once. */
    method MarkError(ok: bool)
      modifies this
      ensures open == old(open) && committed == (if ok then old(committed).(status := Error) else old(committed))
      ensures seen == old(seen) + [committed]
    {
      if ok {
        committed := committed.(status := Error);
      }
      seen := seen + [committed];
    }
  }

  /** The first `done` steps succeeded; if that is not all, the next one failed or the process died there. */
  ghost predicate Stopped(steps: seq<Step>, done: nat, world: Step -> Outcome) {
    && done <= |steps| && (forall j :: 0 <= j < done ==> world(steps[j]).Succeeds?)
    && (done < |steps| ==> !world(steps[done]).Succeeds?)
  }

  /** The document after its job stopped. */
  function Final(chunks: seq<seq<Byte>>, embedder: Option<seq<Vector>>, world: Step -> Outcome): View {
    var steps := Steps(|chunks|, embedder.Some?);
    var done := Done(steps, world);
    if done == |steps| then Published(chunks, embedder)
    else if world(steps[done]).Fails? && world(SetError).Succeeds? then UPLOADED.(status := Error)
    else UPLOADED
  }

  /** Whole or not at all: the only states of a document anyone ever sees. */
  ghost predicate AllOrNothing(v: View, chunks: seq<seq<Byte>>, embedder: Option<seq<Vector>>) {
    v == UPLOADED || v == UPLOADED.(status := Error) || v == Published(chunks, embedder)
  }

  ghost predicate Outcomes(db: Database, chunks: seq<seq<Byte>>, embedder: Option<seq<Vector>>, world: Step -> Outcome)
    reads db
  {
    && db.committed == Final(chunks, embedder, world) && db.open == None
    && forall v :: v in db.seen ==> AllOrNothing(v, chunks, embedder)
  }

  ghost predicate Fresh(db: Database)
    reads db
  {
    db.committed == UPLOADED && db.open == None && forall v :: v in db.seen ==> v == UPLOADED
  }

  method ProcessDocument(db: Database, text: seq<Byte>, embedder: Option<seq<Vector>>, world: Step -> Outcome)
    requires Fresh(db)
    modifies db
    ensures Outcomes(db, ChunksOf(text), embedder, world)
  {
    var chunks := Chunker.Chunk(text, 0, 0);
    Job(db, chunks, embedder, world);
  }

  lemma StopsAt(steps: seq<Step>, done: nat, world: Step -> Outcome)
    requires Stopped(steps, done, world)
    ensures Done(steps, world) == done
  {
    var k := Done(steps, world);
    assert k < |steps| ==> !world(steps[k]).Succeeds?;
    assert done < |steps| ==> !world(steps[done]).Succeeds?;
  }

  /** The job ends early: the failure is marked unless the process died, and the transaction rolled back. */
  method GiveUp(db: Database, why: Outcome, chunks: seq<seq<Byte>>, embedder: Option<seq<Vector>>,
                world: Step -> Outcome, ghost done: nat)
    requires db.committed == UPLOADED && forall v :: v in db.seen ==> v == UPLOADED
    requires var steps := Steps(|chunks|, embedder.Some?);
             done < |steps| && Stopped(steps, done, world) && why == world(steps[done])
    modifies db
    ensures Outcomes(db, chunks, embedder, world)
  {
    StopsAt(Steps(|chunks|, embedder.Some?), done, world);
    if why.Fails? {
      db.MarkError(world(SetError).Succeeds?);
    }
    db.Rollback();
  }

  method Job(db: Database, chunks: seq<seq<Byte>>, embedder: Option<seq<Vector>>, world: Step -> Outcome)
    requires Fresh(db)
    modifies db
    ensures Outcomes(db, chunks, embedder, world)
  {
    ghost var steps := Steps(|chunks|, embedder.Some?);
    if embedder.Some? {
      assert steps[0] == Embed && steps[1] == Begin;
      if !world(Embed).Succeeds? {
        GiveUp(db, world(Embed), chunks, embedder, world, 0);
        return;
      }
    } else {
      assert steps[0] == Begin;
    }
    db.BeginTx(world(Begin).Succeeds?);
    if db.open.None? {
      GiveUp(db, world(Begin), chunks, embedder, world, if embedder.Some? then 1 else 0);
      return;
    }
    Publish(db, chunks, embedder, world);
  }

  /** The transaction: until its commit nobody else sees any of it. */
  method Publish(db: Database, chunks: seq<seq<Byte>>, embedder: Option<seq<Vector>>, world: Step -> Outcome)
    requires db.committed == UPLOADED && db.open == Some(UPLOADED) && forall v :: v in db.seen ==> v == UPLOADED
    requires world(Begin).Succeeds? && (embedder.Some? ==> world(Embed).Succeeds?)
    modifies db
    ensures Outcomes(db, chunks, embedder, world)
  {
    ghost var steps := Steps(|chunks|, embedder.Some?);
    ghost var start := |steps| - |chunks| - 2;
    ghost var rows := RowsOf(chunks, embedder);
    assert rows[..0] == [];
    for i := 0 to |chunks|
      invariant db.committed == UPLOADED && forall v :: v in db.seen ==> v == UPLOADED
      invariant db.open == Some(View(Processing, 0, rows[..i]))
      invariant forall j :: 0 <= j < start + i ==> world(steps[j]).Succeeds?
    {
      assert steps[start + i] == Insert(i);
      assert rows[..i] + [Row(i, chunks[i], EmbeddingOf(embedder, i))] == rows[..i + 1];
      var ok := world(Insert(i)).Succeeds?;
      db.InsertChunk(Row(i, chunks[i], EmbeddingOf(embedder, i)), ok);
      if !ok {
        GiveUp(db, world(Insert(i)), chunks, embedder, world, start + i);
        return;
      }
    }
    assert rows[..|chunks|] == rows;
    Finish(db, chunks, embedder, world);
  }

  /** The status and the commit. */
  method Finish(db: Database, chunks: seq<seq<Byte>>, embedder: Option<seq<Vector>>, world: Step -> Outcome)
    requires db.committed == UPLOADED && forall v :: v in db.seen ==> v == UPLOADED
    requires db.open == Some(View(Processing, 0, RowsOf(chunks, embedder)))
    requires var steps := Steps(|chunks|, embedder.Some?);
             forall j :: 0 <= j < |steps| - 2 ==> world(steps[j]).Succeeds?
    modifies db
    ensures Outcomes(db, chunks, embedder, world)
  {
    ghost var steps := Steps(|chunks|, embedder.Some?);
    assert steps[|steps| - 2] == SetReady && steps[|steps| - 1] == Commit;
    var marked, committed := world(SetReady).Succeeds?, world(Commit).Succeeds?;
    db.MarkReady(|chunks|, marked);
    if !marked {
      GiveUp(db, world(SetReady), chunks, embedder, world, |steps| - 2);
      return;
    }
    db.CommitTx(committed);
    if !committed {
      GiveUp(db, world(Commit), chunks, embedder, world, |steps| - 1);
      return;
    }
    StopsAt(steps, |steps|, world);
    db.Rollback();
  }

  /**
   * Whoever sees a document as ready sees every paragraph of its text, in order, each chunk beside the
   * embedder's vector of the same index, as far as the embedder gave one.
   */
  lemma PublishedWhole(v: View, text: seq<Byte>, embedder: Option<seq<Vector>>, i: nat)
    requires AllOrNothing(v, ChunksOf(text), embedder) && v.status == Ready && i < |v.rows|
    ensures var groups := GroupsOf(text);
            && v.chunkCount == |v.rows| == |groups| && Concat(groups) == Chunker.Paragraphs(text)
            && ChunkerLaws.IsPacking(groups, Chunker.Paragraphs(text), 2048, 256)
            && v.rows[i].index == i
            && v.rows[i].content == TrimLeft(Chunker.Carry(groups[..i], 256)) + Chunker.JoinBlank(groups[i])
    ensures embedder.Some? && i < |embedder.value| ==> v.rows[i].embedding == Some(embedder.value[i])
    ensures embedder.None? || i >= |embedder.value| ==> v.rows[i].embedding == None
  {
    PublishedRows(v, text, embedder);
    PublishedText(text, i);
  }

  lemma PublishedRows(v: View, text: seq<Byte>, embedder: Option<seq<Vector>>)
    requires AllOrNothing(v, ChunksOf(text), embedder) && v.status == Ready
    ensures v.chunkCount == |v.rows| == |GroupsOf(text)|
    ensures forall i :: 0 <= i < |v.rows| ==>
              && v.rows[i].index == i && v.rows[i].content == ChunksOf(text)[i]
              && v.rows[i].embedding
                 == if embedder.Some? && i < |embedder.value| then Some(embedder.value[i]) else None
  {
  }

  lemma PublishedText(text: seq<Byte>, i: nat)
    requires i < |GroupsOf(text)|
    ensures var groups := GroupsOf(text);
            && ChunkerLaws.IsPacking(groups, Chunker.Paragraphs(text), 2048, 256)
            && ChunksOf(text)[i] == TrimLeft(Chunker.Carry(groups[..i], 256)) + Chunker.JoinBlank(groups[i])
  {
    ChunkerLaws.ChunkPromises(text, 2048, 256, GroupsOf(text), i);
  }

  // How a document ends

  /** The steps of a job with `n` chunks. */
  predicate IsTaken(step: Step, n: nat, embedder: bool) {
    match step
    case Embed => embedder
    case Insert(i) => i < n
    case SetError => false
    case _ => true
  }

  function Rank(step: Step, n: nat): nat {
    match step
    case Embed => 0
    case Begin => 1
    case Insert(i) => 2 + i
    case SetReady => n + 2
    case Commit => n + 3
    case SetError => n + 4
  }

  /** The job stops at this step, all before it having succeeded. */
  ghost predicate StopsBy(step: Step, n: nat, embedder: bool, world: Step -> Outcome) {
    && IsTaken(step, n, embedder) && !world(step).Succeeds?
    && forall s :: IsTaken(s, n, embedder) && Rank(s, n) < Rank(step, n) ==> world(s).Succeeds?
  }

  lemma StepIndex(n: nat, embedder: bool, step: Step)
    requires IsTaken(step, n, embedder)
    ensures var steps, k := Steps(n, embedder), Rank(step, n) - (if embedder then 0 else 1);
            0 <= k < |steps| && steps[k] == step
  {
  }

  lemma IndexedStep(n: nat, embedder: bool, k: nat)
    requires k < |Steps(n, embedder)|
    ensures var step := Steps(n, embedder)[k];
            IsTaken(step, n, embedder) && Rank(step, n) == k + (if embedder then 0 else 1)
  {
  }

  lemma StopIff(n: nat, embedder: bool, world: Step -> Outcome, step: Step)
    ensures var steps, done := Steps(n, embedder), Done(Steps(n, embedder), world);
            done < |steps| && steps[done] == step <==> StopsBy(step, n, embedder, world)
  {
    var steps, done := Steps(n, embedder), Done(Steps(n, embedder), world);
    if done < |steps| && steps[done] == step {
      IndexedStep(n, embedder, done);
      forall s | IsTaken(s, n, embedder) && Rank(s, n) < Rank(step, n) ensures world(s).Succeeds? {
        StepIndex(n, embedder, s);
      }
    }
    if StopsBy(step, n, embedder, world) {
      StepIndex(n, embedder, step);
      var k := Rank(step, n) - (if embedder then 0 else 1);
      forall j | 0 <= j < k ensures world(steps[j]).Succeeds? { IndexedStep(n, embedder, j); }
      StopsAt(steps, k, world);
    }
  }

  /**
   * A document ends up ready exactly if every step of its job succeeds, and marked exactly if the
   * step the job stops at fails, rather than crashes, and the mark is written.
   */
  lemma EndsIff(chunks: seq<seq<Byte>>, embedder: Option<seq<Vector>>, world: Step -> Outcome)
    ensures var n, emb, status := |chunks|, embedder.Some?, Final(chunks, embedder, world).status;
            && (status == Ready <==> forall s :: IsTaken(s, n, emb) ==> world(s).Succeeds?)
            && (status == Error <==>
                  world(SetError).Succeeds? && exists s :: StopsBy(s, n, emb, world) && world(s).Fails?)
  {
    var n, emb := |chunks|, embedder.Some?;
    var steps, done := Steps(n, emb), Done(Steps(n, emb), world);
    forall s ensures done < |steps| && steps[done] == s <==> StopsBy(s, n, emb, world) { StopIff(n, emb, world, s); }
    if done < |steps| {
      assert StopsBy(steps[done], n, emb, world);
    } else {
      forall s | IsTaken(s, n, emb) ensures world(s).Succeeds? { StepIndex(n, emb, s); }
    }
  }

  /** The database refuses a text that is not valid UTF-8. */
  ghost predicate Refuses(chunks: seq<seq<Byte>>, world: Step -> Outcome) {
    forall i :: 0 <= i < |chunks| && !Utf8.IsUtf8(chunks[i]) ==> !world(Insert(i)).Succeeds?
  }

  lemma ReadyInserted(chunks: seq<seq<Byte>>, embedder: Option<seq<Vector>>, world: Step -> Outcome, i: nat)
    requires Final(chunks, embedder, world).status == Ready && i < |chunks|
    ensures world(Insert(i)).Succeeds?
  {
    var steps := Steps(|chunks|, embedder.Some?);
    assert steps[|steps| - |chunks| - 2 + i] == Insert(i);
    assert Done(steps, world) == |steps|;
  }

  /** A valid text is published only if every carry between its chunks was cut where a rune starts. */
  lemma ReadyNeedsWholeRunes(text: seq<Byte>, embedder: Option<seq<Vector>>, world: Step -> Outcome, i: nat)
    requires Utf8.IsUtf8(text) && Refuses(ChunksOf(text), world)
    requires Final(ChunksOf(text), embedder, world).status == Ready && i < |GroupsOf(text)|
    ensures ChunkerRunes.CutsOnRune(GroupsOf(text)[..i], Chunker.OverlapOf(0))
  {
    ReadyInserted(ChunksOf(text), embedder, world, i);
    ChunkerRunes.ChunkUtf8Iff(text, Chunker.SizeOf(0), Chunker.OverlapOf(0), GroupsOf(text), i);
  }
}
