/** The calls that reach the stores, as a log of them shows: what was asked, and whether
    the store answered. */
module Calls {
  import opened Domain

  datatype Op =
    | JobRead(id: Id) | DocRead(id: Id) | ObjectRead(key: Key) | DocsListed(limit: int) | RowsListed(doc: Id)
    | JobSaved(job: Job) | DocSaved(document: Document) | JobMade(job: Job) | DocMade(document: Document)
    | ObjectPut(key: Key, body: Bytes) | RowSaved(row: Artifact)
    | RowMade(doc: Id, job_: Id, kind: Kind, format: Format, at: Key, size: nat)
    | ObjectGone(key: Key) | RowsGone(doc: Id) | JobsGone(doc: Id) | DocGone(id: Id)

  datatype Call = Call(op: Op, fault: Fault)

  /** Each call turned out as the store had it, the n-th by down(n). */
  ghost predicate Honest(log: seq<Call>, down: nat -> bool) {
    forall i :: 0 <= i < |log| ==> log[i].fault == if down(i) then StoreDown else Fine
  }

  lemma HonestSnoc(log: seq<Call>, down: nat -> bool, op: Op)
    requires Honest(log, down)
    ensures Honest(log + [Call(op, if down(|log|) then StoreDown else Fine)], down)
  {}

  /** No call failed. */
  predicate Smooth(calls: seq<Call>) {
    forall i :: 0 <= i < |calls| ==> calls[i].fault == Fine
  }

  lemma SmoothJoins(a: seq<Call>, b: seq<Call>)
    ensures Smooth(a + b) <==> Smooth(a) && Smooth(b)
  {
    assert forall i :: 0 <= i < |a| ==> (a + b)[i] == a[i];
    assert forall i :: 0 <= i < |b| ==> (a + b)[|a| + i] == b[i];
  }
}
