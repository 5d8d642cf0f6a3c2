/** The uploader object itself (modules/batch-uploader.js) and its store. Each method is one
    synchronous stretch and is proved to do what the protocol's transition says. */
module BatchUploaderObject {
  import opened Basics
  import opened UploadProtocol
  import AuthToken

  /** The persistent store: operations are performed in the order they were issued. */
  class Outbox {
    var issued: seq<StoreOp>
    var contents: Disk

    constructor ()
      ensures issued == [] && contents == map[]
    {
      issued, contents := [], map[];
    }

    method Issue(op: StoreOp)
      modifies this`issued
      ensures issued == old(issued) + [op]
    {
      issued := issued + [op];
    }

    /** The oldest outstanding operation commits. */
    method Commit()
      requires issued != []
      modifies this
      ensures contents == Applied(old(contents), old(issued)[0]) && issued == old(issued)[1..]
    {
      match issued[0] {
        case Put(f) => contents := contents[OutboxKey(f) := f];
        case Delete(key) => contents := contents - {key};
        case Clear(_) => contents := map[];
        case Read =>
      }
      issued := issued[1..];
    }
  }

  class BatchUploader {
    var pendingQueue: seq<File>
    var epoch: nat
    var flight: Flight
    var authPaused: bool
    var authToken: Option<Token>
    var uploadedFiles: nat
    var failedBatches: nat
    var droppedFiles: nat
    const store: Outbox?

    constructor (store: Outbox?)
      ensures this.store == store && State() == FreshUploader(None, store != null)
    {
      this.store := store;
      pendingQueue, epoch, flight, authPaused, authToken := [], 0, Idle, false, None;
      uploadedFiles, failedBatches, droppedFiles := 0, 0, 0;
    }

    function State(): Uploader
      reads this
    {
      Uploader(pendingQueue, epoch, flight, authPaused, authToken,
               Stats(uploadedFiles, failedBatches, droppedFiles), store != null)
    }

    function Outstanding(): seq<StoreOp>
      reads this, store
    {
      if store == null then [] else store.issued
    }

    /** The operations outstanding after `op` has been issued to the store, if there is one. */
    function With(op: StoreOp): seq<StoreOp>
      reads this, store
    {
      if store == null then [] else store.issued + [op]
    }

    method Enqueue(f: File)
      modifies this`pendingQueue, store
      ensures store != null ==> store.contents == old(store.contents)
      ensures State() == old(State()).(pending := old(pendingQueue) + [f])
      ensures Outstanding() == old(With(Put(f)))
    {
      pendingQueue := pendingQueue + [f];
      if store != null {
        store.Issue(Put(f));
      }
    }

    /** `processBatch` up to the request: the batch is taken out of the queue and sent with the
        token held at that moment, in one stretch. */
    method ProcessBatch() returns (sent: Option<Send>)
      modifies this`pendingQueue, this`flight
      ensures State() == Started(old(State()))
      ensures sent.Some? <==> CanStart(old(State()))
      ensures sent.Some? ==> flight.Sent? && sent.value == Send(flight.batch, old(authToken))
      ensures sent.Some? ==> old(pendingQueue) == sent.value.batch + pendingQueue
      ensures sent.Some? ==> 1 <= |sent.value.batch| <= BATCH_SIZE
    {
      if !flight.Idle? || pendingQueue == [] || authPaused {
        return None;
      }
      var n := if |pendingQueue| < BATCH_SIZE then |pendingQueue| else BATCH_SIZE;
      var batch := pendingQueue[..n];
      pendingQueue := pendingQueue[n..];
      flight := Sent(batch, epoch);
      return Some(Send(batch, authToken));
    }

    /** The rest of `processBatch` once the request has ended, up to the first store delete. */
    method OnReply(response: Response)
      requires flight.Sent?
      modifies this
      ensures State() == Replied(old(State()), OutcomeOf(response))
    {
      var outcome := OutcomeOf(response);
      var batch, batchEpoch := flight.batch, flight.batchEpoch;
      if outcome.Acked? {
        uploadedFiles := uploadedFiles + |batch|;
        flight := Forgetting(batch, batchEpoch);
        return;
      }
      failedBatches := failedBatches + 1;
      if outcome.Rejected? {
        droppedFiles := droppedFiles + |batch|;
        flight := Forgetting(batch, batchEpoch);
      } else if batchEpoch != epoch {
        droppedFiles := droppedFiles + |batch|;
        flight := Forgetting(batch, batchEpoch);
      } else {
        pendingQueue := batch + pendingQueue;
        if outcome.AuthExpired? {
          authPaused := true;
        }
        flight := Idle;
      }
    }

    /** One round of `forget`: the next delete, or the end of the upload. */
    method ForgetNext()
      requires flight.Forgetting?
      modifies this`flight, store
      ensures store != null ==> store.contents == old(store.contents)
      ensures State() == ForgotOne(old(State()))
      ensures Outstanding() == if StillForgetting(old(State())) then old(With(Delete(OutboxKey(flight.rest[0]))))
                               else old(Outstanding())
    {
      if store == null || flight.rest == [] {
        flight := Idle;
        return;
      }
      store.Issue(Delete(OutboxKey(flight.rest[0])));
      flight := flight.(rest := flight.rest[1..]);
    }

    method ClearOutbox(number: nat)
      modifies this`epoch, this`pendingQueue, this`authPaused, store
      ensures store != null ==> store.contents == old(store.contents)
      ensures State() == Cleared(old(State()))
      ensures Outstanding() == old(With(Clear(number)))
    {
      epoch := epoch + 1;
      pendingQueue := [];
      authPaused := false;
      if store != null {
        store.Issue(Clear(number));
      }
    }

    method ResumeUploads()
      modifies this`authPaused
      ensures State() == old(State()).(authPaused := false)
    {
      authPaused := false;
    }

    method PauseForAuth()
      modifies this`authPaused
      ensures State() == old(State()).(authPaused := true)
    {
      authPaused := true;
    }

    /** Only the printable ASCII of the text is kept, and nothing at all is no token. */
    method SetAuthToken(text: string, since: nat)
      modifies this`authToken
      ensures authToken.None? <==> forall c | c in text :: !AuthToken.HeaderSafe(c)
      ensures State() == old(State()).(token := authToken)
      ensures authToken.Some? ==> authToken.value == Token(AuthToken.Cleaned(text), since)
    {
      var kept := AuthToken.Cleaned(text);
      AuthToken.NothingKeptIff(text);
      authToken := if kept == "" then None else Some(Token(kept, since));
    }

    /** The merge in `rehydrate`: read-back files join the queue unless their key is in it. */
    method MergeReadBack(items: seq<File>) returns (pendingCount: nat)
      modifies this`pendingQueue
      ensures State() == Merged(old(State()), items)
      ensures pendingCount == |pendingQueue|
    {
      var known := set f | f in pendingQueue :: OutboxKey(f);
      ghost var before := pendingQueue;
      assert items[0..] == items;
      for i := 0 to |items|
        invariant State() == old(State()).(pending := pendingQueue)
        invariant pendingQueue + NewItems(items[i..], known) == before + NewItems(items, Keys(before))
      {
        var it := items[i];
        ghost var queued := pendingQueue;
        assert items[i..][0] == it && items[i..][1..] == items[i + 1..];
        if it.contentHash != "" && OutboxKey(it) !in known {
          pendingQueue := pendingQueue + [it];
          known := known + {OutboxKey(it)};
          assert queued + ([it] + NewItems(items[i + 1..], known)) == pendingQueue + NewItems(items[i + 1..], known);
        }
      }
      assert NewItems(items[|items|..], known) == [];
      pendingCount := |pendingQueue|;
    }
  }
}
