/** The map from participants to the socket that currently serves them, when connections of one
  participant may overlap.
*/
module PeerMap {
  import opened Wrappers
  import opened Histories
  import opened Ids

  /** A connection's outgoing half. Sockets are compared by identity. */
  class Sink {
    ghost var closes: nat

    constructor ()
      ensures closes == 0
    {
      closes := 0;
    }

    /** Sends the close frame that tells an older connection it was superseded. */
    method SendClose()
      modifies this
      ensures closes == old(closes) + 1
    {
      closes := closes + 1;
    }
  }

  function Inserted<S>(peers: map<ParticipantId, S>, p: ParticipantId, sink: S): map<ParticipantId, S> {
    peers[p := sink]
  }

  function RemovedIfSame<S(==)>(peers: map<ParticipantId, S>, p: ParticipantId, sink: S): map<ParticipantId, S> {
    if p in peers && peers[p] == sink then peers - {p} else peers
  }

  class WebSocketBroadcast {
    var peers: map<ParticipantId, Sink>

    constructor ()
      ensures peers == map[]
    {
      peers := map[];
    }

    method Insert(p: ParticipantId, sink: Sink)
      modifies this, if p in peers then {peers[p]} else {}
      ensures peers == Inserted(old(peers), p, sink)
      ensures p in old(peers) ==> old(peers)[p].closes == old(peers[p].closes) + 1
    {
      if p in peers {
        var superseded := peers[p];
        peers := peers[p := sink];
        superseded.SendClose();
      } else {
        peers := peers[p := sink];
      }
    }

    method RemoveIfSame(p: ParticipantId, sink: Sink)
      modifies this`peers
      ensures peers == RemovedIfSame(old(peers), p, sink)
    {
      if p in peers && peers[p] == sink {
        peers := peers - {p};
      }
    }
  }

  // ---------- overlapping connections ----------

  /** A connection inserts its socket when it starts and removes it, if still current, when it ends. */
  datatype Event<S> = Began(p: ParticipantId, sink: S) | Ended(p: ParticipantId, sink: S)

  function Peers<S(==)>(events: History<Event<S>>): map<ParticipantId, S> {
    match events
    case Start => map[]
    case Then(before, Began(p, sink)) => Inserted(Peers(before), p, sink)
    case Then(before, Ended(p, sink)) => RemovedIfSame(Peers(before), p, sink)
  }

  predicate Happened<S(==)>(events: History<Event<S>>, e: Event<S>) {
    events.Then? && (events.last == e || Happened(events.past, e))
  }

  /** Every connection has its own socket, begins once, and ends only after it began. */
  ghost predicate Orderly<S(!new)>(events: History<Event<S>>) {
    events.Then? ==>
      && Orderly(events.past)
      && match events.last
         case Began(p, sink) => forall q :: !Happened(events.past, Began(q, sink))
         case Ended(p, sink) => Happened(events.past, Began(p, sink))
  }

  /** The socket of the connection of `p` that began last. */
  function Newest<S>(events: History<Event<S>>, p: ParticipantId): Option<S> {
    match events
    case Start => None
    case Then(before, Began(q, sink)) => if q == p then Some(sink) else Newest(before, p)
    case Then(before, Ended(_, _)) => Newest(before, p)
  }

  lemma {:induction false} NewestBegan<S(!new)>(events: History<Event<S>>, p: ParticipantId)
    ensures Newest(events, p).Some? ==> Happened(events, Began(p, Newest(events, p).value))
  {
    if events.Start? {
    } else {
      NewestBegan(events.past, p);
    }
  }

  lemma {:induction false} EndedBegan<S(!new)>(events: History<Event<S>>, p: ParticipantId, sink: S)
    requires Orderly(events) && Happened(events, Ended(p, sink))
    ensures Happened(events, Began(p, sink))
  {
    if events.last != Ended(p, sink) {
      EndedBegan(events.past, p, sink);
    }
  }

  /** Newest connection wins: `p` is bound to `sink` exactly when the connection with `sink` is the one
    of `p` that began last and it has not ended. The late end of an older connection changes nothing. */
  lemma {:induction false} NewestConnectionWins<S(!new)>(events: History<Event<S>>, p: ParticipantId, sink: S)
    requires Orderly(events)
    ensures (p in Peers(events) && Peers(events)[p] == sink) <==>
            (Newest(events, p) == Some(sink) && !Happened(events, Ended(p, sink)))
  {
    if events.Start? {
    } else {
      NewestConnectionWins(events.past, p, sink);
      if events.last == Began(p, sink) && Happened(events.past, Ended(p, sink)) {
        EndedBegan(events.past, p, sink);
      }
    }
  }
}
