/** The order of the delete calls in a batch delete: the selected ids are
    deleted one after another, each delete awaited before the next is issued,
    and the first rejected delete ends the batch. */
module BatchDeletes {

  /** The delete calls a batch issues for `ids` when the store answers
      `store(id)` to the delete of `id`: one per id, in order, each after the
      previous one succeeded, and none after the first one that fails. */
  function IssuedDeletes(ids: seq<string>, store: string -> bool): (calls: seq<string>)
    ensures calls <= ids
  {
    if ids == [] then []
    else [ids[0]] + (if store(ids[0]) then IssuedDeletes(ids[1..], store) else [])
  }

  /** Every delete of `ids` succeeds. */
  predicate AllSucceed(ids: seq<string>, store: string -> bool) {
    ids == [] || (store(ids[0]) && AllSucceed(ids[1..], store))
  }

  /** `AllSucceed` says that the store accepts the delete of every id. */
  lemma {:induction false} AllSucceedAt(ids: seq<string>, store: string -> bool)
    ensures AllSucceed(ids, store) <==> forall i :: 0 <= i < |ids| ==> store(ids[i])
  {
    if ids != [] {
      AllSucceedAt(ids[1..], store);
      if store(ids[0]) && AllSucceed(ids[1..], store) {
        forall i | 0 <= i < |ids| ensures store(ids[i]) {
          if i > 0 {
            assert ids[i] == ids[1..][i - 1];
          }
        }
      }
    }
  }

  /** Every delete of the batch succeeds exactly when every delete it issues
      succeeds, and then it issued one for every id. */
  lemma {:induction false} BatchSucceedsIffEveryDeleteDoes(ids: seq<string>, store: string -> bool)
    ensures AllSucceed(IssuedDeletes(ids, store), store) <==> AllSucceed(ids, store)
    ensures AllSucceed(ids, store) ==> IssuedDeletes(ids, store) == ids
  {
    if ids != [] {
      var calls := IssuedDeletes(ids, store);
      if store(ids[0]) {
        BatchSucceedsIffEveryDeleteDoes(ids[1..], store);
        assert calls[1..] == IssuedDeletes(ids[1..], store);
      }
    }
  }

  /** The batch stops at the first failure: every call but the last one
      succeeded, and the last one failed unless every id was reached. */
  lemma {:induction false} IssuedStopsAtFirstFailure(ids: seq<string>, store: string -> bool)
    ensures var calls := IssuedDeletes(ids, store);
            (forall i :: 0 <= i < |calls| - 1 ==> store(calls[i]))
            && (calls == ids || !store(calls[|calls| - 1]))
  {
    if ids != [] {
      IssuedStopsAtFirstFailure(ids[1..], store);
      var calls := IssuedDeletes(ids, store);
      if store(ids[0]) {
        var tail := IssuedDeletes(ids[1..], store);
        assert calls == [ids[0]] + tail;
        forall i | 0 <= i < |calls| - 1 ensures store(calls[i]) {
          if i > 0 {
            assert calls[i] == tail[i - 1];
          }
        }
        if tail == ids[1..] {
          assert calls == ids;
        } else {
          assert calls[|calls| - 1] == tail[|tail| - 1];
        }
      }
    }
  }

  /** A delete that succeeds lets the batch go on with the next id. */
  lemma IssuedDeletesContinue(done: seq<string>, rest: seq<string>, store: string -> bool)
    requires rest != [] && store(rest[0])
    ensures done + IssuedDeletes(rest, store) == (done + [rest[0]]) + IssuedDeletes(rest[1..], store)
  {
    var after := IssuedDeletes(rest[1..], store);
    assert IssuedDeletes(rest, store) == [rest[0]] + after;
    assert done + ([rest[0]] + after) == (done + [rest[0]]) + after;
  }

  /** A delete that fails is the last call of the batch. */
  lemma IssuedDeletesStop(done: seq<string>, rest: seq<string>, store: string -> bool)
    requires rest != [] && !store(rest[0])
    ensures done + IssuedDeletes(rest, store) == done + [rest[0]]
  {
    assert IssuedDeletes(rest, store) == [rest[0]];
  }

  /** The loop of the batch: await the delete of each id in turn, and leave
      the loop at the first one that is rejected. */
  method DeleteInOrder(ids: seq<string>, store: string -> bool) returns (calls: seq<string>, failed: bool)
    ensures calls == IssuedDeletes(ids, store)
    ensures failed <==> !AllSucceed(ids, store)
  {
    calls, failed := [], false;
    var rest := ids;
    while rest != [] && !failed
      invariant failed ==> calls == IssuedDeletes(ids, store) && !AllSucceed(ids, store)
      invariant !failed ==> IssuedDeletes(ids, store) == calls + IssuedDeletes(rest, store)
      invariant !failed ==> (AllSucceed(ids, store) <==> AllSucceed(rest, store))
      decreases |rest|, !failed
    {
      var tid := rest[0];
      if store(tid) {
        IssuedDeletesContinue(calls, rest, store);
        calls := calls + [tid];
        rest := rest[1..];
      } else {
        IssuedDeletesStop(calls, rest, store);
        calls := calls + [tid];
        failed := true;
      }
    }
  }
}
