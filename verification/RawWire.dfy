/** The raw-wire channel of the client and the transport wrapper that offers it each response first. */
module RawWire {
  import opened Options
  import opened RawWireModel

  class RawWireChannel {
    var rawWireRequestCounter: nat
    var pendingRawWireRequests: set<Id>
    ghost var armed: set<Id>
    ghost var promises: map<Id, Promise>
    ghost var consumed: seq<Message>
    ghost var forwarded: seq<Message>

    ghost function Model(): State
      reads this
    {
      State(rawWireRequestCounter, pendingRawWireRequests, armed, promises, consumed, forwarded)
    }

    ghost predicate Valid()
      reads this
    {
      Inv(Model())
    }

    constructor ()
      ensures Valid() && Model() == INITIAL
    {
      rawWireRequestCounter, pendingRawWireRequests := 0, {};
      armed, promises, consumed, forwarded := {}, map[], [], [];
    }

    method RawWireRequest(ghost rewrite: Message -> Message) returns (id: Id)
      requires Valid()
      modifies this
      ensures Valid() && Model() == Next(old(Model()), Request, rewrite)
      ensures id == MintedId(rawWireRequestCounter) && id !in old(promises)
    {
      StepKeeps(Model(), Request, rewrite);
      FreshId(Model());
      rawWireRequestCounter := rawWireRequestCounter + 1;
      id := MintedId(rawWireRequestCounter);
      armed := armed + {id};
      pendingRawWireRequests := pendingRawWireRequests + {id};
      promises := promises[id := Unsettled];
    }

    ghost method ClearTimer(id: Id)
      modifies `armed
      ensures armed == old(armed) - {id}
    {
      armed := armed - {id};
    }

    ghost method SettlePromise(id: Id, to: Promise)
      modifies `promises
      ensures promises == Settle(old(promises), id, to)
    {
      promises := Settle(promises, id, to);
    }

    /** The transport's hook: take the response if this channel is waiting for it. */
    method ConsumeRawWireResponse(message: Message) returns (taken: bool)
      requires message.Response?
      modifies `pendingRawWireRequests, `armed, `promises
      ensures taken == old(Claims(Model(), message))
      ensures
        if taken then
          Model() == old(Model()).(
            pending := old(pendingRawWireRequests) - {KeyOf(message.id)}, armed := old(armed) - {KeyOf(message.id)},
            promises := Settle(old(promises), KeyOf(message.id), Outcome(message.body)))
        else Model() == old(Model())
    {
      var id := KeyOf(message.id);
      if id !in pendingRawWireRequests {
        return false;
      }
      pendingRawWireRequests := pendingRawWireRequests - {id};
      ClearTimer(id);
      if message.body.Error? {
        SettlePromise(id, Rejected(message.body.message));
      } else {
        SettlePromise(id, Resolved(message.body.value));
      }
      return true;
    }

    /** The wrapper's `onmessage`: consume, or rewrite a result the SDK cannot decode, or pass on. */
    method OnMessage(message: Message, rewrite: Message -> Message) returns (delivered: Option<Message>)
      requires Valid()
      modifies this
      ensures Valid() && Model() == Next(old(Model()), Receive(message), rewrite)
      ensures delivered.None? <==> old(Claims(Model(), message))
      ensures delivered.Some? ==> forwarded == old(forwarded) + [delivered.value] && consumed == old(consumed)
      ensures delivered.None? ==> forwarded == old(forwarded) && consumed == old(consumed) + [message]
    {
      StepKeeps(Model(), Receive(message), rewrite);
      if message.Response? {
        var taken := ConsumeRawWireResponse(message);
        if taken {
          consumed := consumed + [message];
          return None;
        }
        if message.body.Result? {
          var rewritten := rewrite(message);
          if rewritten != message {
            forwarded := forwarded + [rewritten];
            return Some(rewritten);
          }
        }
      }
      forwarded := forwarded + [message];
      return Some(message);
    }

    method OnTimeout(id: Id, ghost rewrite: Message -> Message)
      requires Valid() && Enabled(Model(), Timeout(id))
      modifies this
      ensures Valid() && Model() == Next(old(Model()), Timeout(id), rewrite)
    {
      StepKeeps(Model(), Timeout(id), rewrite);
      armed := armed - {id};
      pendingRawWireRequests := pendingRawWireRequests - {id};
      SettlePromise(id, Rejected("timed out"));
    }

    method OnSendFailed(id: Id, reason: string, ghost rewrite: Message -> Message)
      requires Valid() && Enabled(Model(), SendFails(id, reason))
      modifies this
      ensures Valid() && Model() == Next(old(Model()), SendFails(id, reason), rewrite)
    {
      StepKeeps(Model(), SendFails(id, reason), rewrite);
      if id in pendingRawWireRequests {
        ClearTimer(id);
        pendingRawWireRequests := pendingRawWireRequests - {id};
      }
      SettlePromise(id, Rejected(reason));
    }

    method RejectPendingRawWireRequests(reason: string, ghost rewrite: Message -> Message)
      requires Valid()
      modifies this
      ensures Valid() && Model() == Next(old(Model()), RejectAll(reason), rewrite)
    {
      StepKeeps(Model(), RejectAll(reason), rewrite);
      SettlePending(reason);
      pendingRawWireRequests := {};
    }

    /** The loop over the map: each entry's timer is cleared and its promise rejected. */
    method SettlePending(reason: string)
      modifies `armed, `promises
      ensures armed == old(armed) - pendingRawWireRequests
      ensures promises == SettleAll(old(promises), pendingRawWireRequests, Rejected(reason))
    {
      var left := pendingRawWireRequests;
      assert pendingRawWireRequests - left == {};
      while left != {}
        invariant left <= pendingRawWireRequests
        invariant armed == old(armed) - (pendingRawWireRequests - left)
        invariant promises == SettleAll(old(promises), pendingRawWireRequests - left, Rejected(reason))
        decreases |left|
      {
        var id :| id in left;
        SettleOneMore(old(promises), pendingRawWireRequests - left, id, Rejected(reason));
        assert pendingRawWireRequests - left + {id} == pendingRawWireRequests - (left - {id});
        ClearTimer(id);
        SettlePromise(id, Rejected(reason));
        left := left - {id};
      }
    }
  }
}
