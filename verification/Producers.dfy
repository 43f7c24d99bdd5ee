// The Producer object: each method is one critical section of producer.go, proved to take
// the step of ProducerLife, and the reconnect loop is proved to conserve its consumers.
module Producers {
  import opened Wrappers
  import opened ProducerLife
  import opened Nodes

  // A track given to a connection: for which media, with which of its codecs.
  datatype Upload = Upload(media: nat, codec: nat, sender: Node)

  class Conn {
    const id: nat
    var stops: nat
    var uploads: seq<Upload>

    constructor (id: nat)
      ensures this.id == id && stops == 0 && uploads == []
    {
      this.id := id;
      stops, uploads := 0, [];
    }

    method AddTrack(media: nat, codec: nat, sender: Node)
      modifies this`uploads
      ensures uploads == old(uploads) + [Upload(media, codec, sender)]
    {
      uploads := uploads + [Upload(media, codec, sender)];
    }

    method Stop()
      modifies this`stops
      ensures stops == old(stops) + 1
    {
      stops := stops + 1;
    }
  }

  datatype Direction = Recvonly | Sendonly | Neither

  // A media of a new connection: its direction, and the codec MatchCodec finds for a
  // track's codec (absent: none of its codecs matches).
  datatype Media = Media(direction: Direction, matches: map<nat, nat>)

  // The tracks that the new connection hands out: for the media and receiver index of a
  // GetTrack call, the track it returns (absent: the call fails).
  type Offers = map<(nat, nat), Node>

  // ---------- which receiver a media replaces ----------

  predicate Takes(receivers: seq<Node>, medias: seq<Media>, offers: Offers, m: nat, i: nat)
    requires m < |medias| && i < |receivers|
  {
    receivers[i].codec in medias[m].matches && (m, i) in offers
  }

  // The first receiver, from index i on, that media m replaces; |receivers| when none.
  function Slot(receivers: seq<Node>, medias: seq<Media>, offers: Offers, m: nat, i: nat): (slot: nat)
    requires m < |medias| && i <= |receivers|
    ensures i <= slot <= |receivers|
    ensures slot < |receivers| ==> Takes(receivers, medias, offers, m, slot)
    ensures forall k :: i <= k < slot ==> !Takes(receivers, medias, offers, m, k)
    decreases |receivers| - i
  {
    if i == |receivers| || Takes(receivers, medias, offers, m, i) then i
    else Slot(receivers, medias, offers, m, i + 1)
  }

  // The receiver list after media m has been tried.
  function Tried(receivers: seq<Node>, medias: seq<Media>, offers: Offers, m: nat): (tried: seq<Node>)
    requires m < |medias|
    ensures |tried| == |receivers|
  {
    var slot := Slot(receivers, medias, offers, m, 0);
    if medias[m].direction.Recvonly? && slot < |receivers| then receivers[slot := offers[(m, slot)]] else receivers
  }

  // Only a receiving media replaces anything, and then the first receiver of which it has a codec
  // and for which it gets a track.
  lemma TriedExactly(receivers: seq<Node>, medias: seq<Media>, offers: Offers, m: nat)
    requires m < |medias|
    ensures var tried := Tried(receivers, medias, offers, m);
            if medias[m].direction == Recvonly
               && exists i: nat :: i < |receivers| && receivers[i].codec in medias[m].matches && (m, i) in offers
            then exists i: nat :: i < |receivers| && receivers[i].codec in medias[m].matches && (m, i) in offers
                   && tried == receivers[i := offers[(m, i)]]
                   && forall k: nat :: k < i ==> receivers[k].codec !in medias[m].matches || (m, k) !in offers
            else tried == receivers
  {
    var slot := Slot(receivers, medias, offers, m, 0);
    forall k: nat | k < slot
      ensures receivers[k].codec !in medias[m].matches || (m, k) !in offers
    {
      assert !Takes(receivers, medias, offers, m, k);
    }
    if slot < |receivers| {
      assert Takes(receivers, medias, offers, m, slot);
      assert receivers[slot].codec in medias[m].matches && (m, slot) in offers;
      if medias[m].direction == Recvonly {
        assert Tried(receivers, medias, offers, m) == receivers[slot := offers[(m, slot)]];
      }
    }
  }

  // The receiver list after the first m medias have been tried.
  function Rewired(receivers: seq<Node>, medias: seq<Media>, offers: Offers, m: nat): (rewired: seq<Node>)
    requires m <= |medias|
    ensures |rewired| == |receivers|
  {
    if m == 0 then receivers else Tried(Rewired(receivers, medias, offers, m - 1), medias, offers, m - 1)
  }

  // The tracks are handed out once, and the receiver list does not know them.
  ghost predicate Unshared(receivers: seq<Node>, offers: Offers) {
    && (forall k :: k in offers ==> offers[k] !in receivers)
    && (forall k, l :: k in offers && l in offers && k != l ==> offers[k] != offers[l])
  }

  // No track of the medias from m on is in the list.
  ghost predicate Unused(receivers: seq<Node>, offers: Offers, m: nat) {
    forall k :: k in offers && k.0 >= m ==> offers[k] !in receivers
  }

  // The list holds no track of a media still to come.
  lemma {:induction false} RewiredMembers(receivers: seq<Node>, medias: seq<Media>, offers: Offers, m: nat)
    requires m <= |medias| && Unshared(receivers, offers)
    ensures Unused(Rewired(receivers, medias, offers, m), offers, m)
  {
    if m > 0 {
      RewiredMembers(receivers, medias, offers, m - 1);
      var before := Rewired(receivers, medias, offers, m - 1);
      var slot := Slot(before, medias, offers, m - 1, 0);
      if medias[m - 1].direction.Recvonly? && slot < |before| {
        var track := offers[(m - 1, slot)];
        assert forall r :: r in Rewired(receivers, medias, offers, m) ==> r in before || r == track;
      }
    }
  }

  // ---------- which senders a media takes ----------

  predicate Wants(medias: seq<Media>, m: nat, sender: Node)
    requires m < |medias|
  {
    medias[m].direction.Sendonly? && sender.codec in medias[m].matches
  }

  // The first n senders, tried with media m.
  function Uploads(senders: seq<Node>, medias: seq<Media>, m: nat, n: nat): seq<Upload>
    requires m < |medias| && n <= |senders|
  {
    if n == 0 then []
    else
      var sender := senders[n - 1];
      Uploads(senders, medias, m, n - 1)
      + if Wants(medias, m, sender) then [Upload(m, medias[m].matches[sender.codec], sender)] else []
  }

  // All senders, tried with the first m medias.
  function AllUploads(senders: seq<Node>, medias: seq<Media>, m: nat): seq<Upload>
    requires m <= |medias|
  {
    if m == 0 then [] else AllUploads(senders, medias, m - 1) + Uploads(senders, medias, m - 1, |senders|)
  }

  // What the new connection should be given for this media and sender.
  predicate Due(medias: seq<Media>, u: Upload) {
    && u.media < |medias| && medias[u.media].direction == Sendonly && u.sender.codec in medias[u.media].matches
    && u.codec == medias[u.media].matches[u.sender.codec]
  }

  lemma {:induction false} UploadsExactly(senders: seq<Node>, medias: seq<Media>, m: nat, n: nat, u: Upload)
    requires m < |medias| && n <= |senders|
    ensures multiset(Uploads(senders, medias, m, n))[u]
            == if u.media == m && Due(medias, u) then multiset(senders[..n])[u.sender] else 0
  {
    if n > 0 {
      UploadsExactly(senders, medias, m, n - 1, u);
      assert senders[..n] == senders[..n - 1] + [senders[n - 1]];
    }
  }

  // A sender goes to the new connection once for each sendonly media with a codec for it, and for
  // no other.
  lemma {:induction false} AllUploadsExactly(senders: seq<Node>, medias: seq<Media>, m: nat, u: Upload)
    requires m <= |medias|
    ensures multiset(AllUploads(senders, medias, m))[u]
            == if u.media < m && Due(medias, u) then multiset(senders)[u.sender] else 0
  {
    if m > 0 {
      AllUploadsExactly(senders, medias, m - 1, u);
      UploadsExactly(senders, medias, m - 1, |senders|, u);
      assert senders[..|senders|] == senders;
    }
  }

  lemma {:induction false} NoUploads(senders: seq<Node>, medias: seq<Media>, m: nat, n: nat)
    requires m < |medias| && n <= |senders| && !medias[m].direction.Sendonly?
    ensures Uploads(senders, medias, m, n) == []
  {
    if n > 0 {
      NoUploads(senders, medias, m, n - 1);
    }
  }

  // ---------- the consumers under a receiver list ----------

  // Receivers are distinct, and every child of one points back at it and is among `kids`.
  ghost predicate Linked(receivers: seq<Node>, kids: set<Node>)
    reads receivers`childs, kids`parent
  {
    && (forall i, j :: 0 <= i < j < |receivers| ==> receivers[i] != receivers[j])
    && (forall i, c :: 0 <= i < |receivers| && c in receivers[i].childs ==> c in kids && c.parent == receivers[i])
  }

  // Slot i of the receiver list carries the consumers lists[i], in that order.
  ghost predicate Carries(receivers: seq<Node>, lists: seq<seq<Node>>)
    reads receivers`childs
  {
    |receivers| == |lists| && forall i :: 0 <= i < |receivers| ==> receivers[i].childs == lists[i]
  }

  ghost predicate Within(receivers: seq<Node>, nodes: set<Node>) {
    forall r :: r in receivers ==> r in nodes
  }

  // Nodes outside the receiver list have no children.
  ghost predicate Spare(nodes: set<Node>, receivers: seq<Node>)
    reads nodes`childs
  {
    forall n :: n in nodes && n !in receivers ==> n.childs == []
  }

  // Fresh tracks: childless, handed out once, and unknown to the receiver list.
  ghost predicate FreshTracks(receivers: seq<Node>, offers: Offers)
    reads offers.Values`childs
  {
    Unshared(receivers, offers) && forall k :: k in offers ==> offers[k].childs == []
  }

  ghost function Consumers(receivers: seq<Node>): multiset<Node>
    reads receivers`childs
  {
    if receivers == [] then multiset{} else multiset(receivers[0].childs) + Consumers(receivers[1..])
  }

  twostate lemma {:induction false} ConsumersConserved(before: seq<Node>, new after: seq<Node>)
    requires |before| == |after|
    requires forall i :: 0 <= i < |before| ==> after[i].childs == old(before[i].childs)
    ensures Consumers(after) == old(Consumers(before))
  {
    if before != [] {
      ConsumersConserved(before[1..], after[1..]);
    }
  }

  predicate Has(receivers: seq<Node>, codec: nat) {
    exists r :: r in receivers && r.codec == codec
  }

  class Producer {
    var state: State
    var conn: Conn?
    var receivers: seq<Node>
    var senders: seq<Node>
    var workerID: nat

    function View(): Life
      reads this
    {
      Life(state, if conn == null then None else Some(conn.id), workerID)
    }

    predicate Valid()
      reads this
    {
      conn != null <==> !state.StateNone?
    }

    constructor ()
      ensures Valid() && View() == INIT.p && receivers == [] && senders == []
    {
      state, conn, workerID := StateNone, null, 0;
      receivers, senders := [], [];
    }

    // `outcome` is what GetProducer would return; null is an error.
    method Dial(outcome: Conn?) returns (ok: bool)
      requires Valid()
      modifies this`state, this`conn
      ensures Valid()
      ensures View() == DialLife(old(View()), if outcome == null then None else Some(outcome.id))
      ensures ok == (old(state) != StateNone || outcome != null)
      ensures if old(state) == StateNone && outcome != null then state == StateMedias && conn == outcome
              else state == old(state) && conn == old(conn)
    {
      ok := true;
      if state.StateNone? {
        if outcome == null {
          return false;
        }
        conn := outcome;
        state := StateMedias;
      }
    }

    // `offered` is what the connection would return for the codec; null is an error.
    method GetTrack(codec: nat, offered: Node?) returns (track: Node?)
      requires Valid()
      modifies this`state, this`receivers
      ensures Valid()
      ensures old(state) == StateNone ==> track == null
      ensures old(state) != StateNone && Has(old(receivers), codec) ==>
                track != null && track in old(receivers) && track.codec == codec
      ensures old(state) != StateNone && !Has(old(receivers), codec) ==> track == offered
      ensures if old(state) == StateNone || Has(old(receivers), codec) || offered == null
              then View() == old(View()) && receivers == old(receivers)
              else View() == TrackLife(old(View())) && receivers == old(receivers) + [offered]
      ensures state == if old(state) == StateMedias && receivers != old(receivers) then StateTracks else old(state)
    {
      track := null;
      if state.StateNone? {
        return;
      }
      var i := 0;
      while i < |receivers|
        invariant 0 <= i <= |receivers|
        invariant forall k :: 0 <= k < i ==> receivers[k].codec != codec
      {
        if receivers[i].codec == codec {
          return receivers[i];
        }
        i := i + 1;
      }
      if offered == null {
        return;
      }
      track := offered;
      receivers := receivers + [offered];
      if state.StateMedias? {
        state := StateTracks;
      }
    }

    // `accepted` is whether the connection takes the track.
    method AddTrack(track: Node, accepted: bool) returns (ok: bool)
      requires Valid()
      modifies this`state, this`senders
      ensures Valid() && ok == (old(state) != StateNone && accepted)
      ensures View() == if ok then TrackLife(old(View())) else old(View())
      ensures senders == if ok then old(senders) + [track] else old(senders)
      ensures state == if old(state) == StateMedias && ok then StateTracks else old(state)
    {
      if state.StateNone? || !accepted {
        return false;
      }
      senders := senders + [track];
      if state.StateMedias? {
        state := StateTracks;
      }
      ok := true;
    }

    // `spawned` is whether a worker was started, with the new workerID.
    method Start() returns (spawned: bool)
      requires Valid()
      modifies this`state, this`workerID
      ensures Valid() && View() == StartLife(old(View()))
      ensures spawned <==> old(state) == StateTracks
      ensures if spawned then state == StateStart && workerID == old(workerID) + 1
              else state == old(state) && workerID == old(workerID)
    {
      if state != StateTracks {
        return false;
      }
      state := StateStart;
      workerID := workerID + 1;
      spawned := true;
    }

    method Stop()
      requires Valid()
      modifies this, conn
      ensures Valid() && View() == StopLife(old(View()))
      ensures old(state) == StateNone || old(state) == StateExternal ==> unchanged(this) && (conn != null ==> unchanged(conn))
      ensures old(state) != StateNone && old(state) != StateExternal ==>
                && state == StateNone && conn == null && receivers == [] && senders == []
                && old(conn).stops == old(conn.stops) + 1
                && workerID == old(workerID) + if old(state) == StateStart then 1 else 0
    {
      match state {
        case StateExternal => return;
        case StateNone => return;
        case StateStart => workerID := workerID + 1;
        case _ =>
      }
      if conn != null {
        conn.Stop();
        conn := null;
      }
      state := StateNone;
      receivers, senders := [], [];
    }

    // Tries every media of a new connection. Each slot of the list keeps its consumers, in
    // order, under the receiver that now sits there; replaced receivers are left childless.
    method Rewire(next: Conn, medias: seq<Media>, offers: Offers, ghost kids: set<Node>)
      requires Linked(receivers, kids) && FreshTracks(receivers, offers)
      modifies this`receivers, next`uploads, receivers`childs, offers.Values`childs, kids`parent
      ensures next.uploads == old(next.uploads) + AllUploads(senders, medias, |medias|)
      ensures receivers == Rewired(old(receivers), medias, offers, |medias|)
      ensures Linked(receivers, kids)
      ensures forall i :: 0 <= i < |receivers| ==> receivers[i].childs == old(receivers[i].childs)
      ensures Consumers(receivers) == old(Consumers(receivers))
      ensures forall r :: r in old(receivers) && r !in receivers ==> r.childs == []
    {
      ghost var nodes := (set r | r in receivers) + offers.Values;
      ghost var lists := seq(|receivers|, i requires 0 <= i < |receivers| reads this, receivers => receivers[i].childs);
      TryAll(next, medias, offers, kids, nodes, lists);
      ConsumersConserved(old(receivers), receivers);
    }

    method TryAll(next: Conn, medias: seq<Media>, offers: Offers, ghost kids: set<Node>, ghost nodes: set<Node>,
                  ghost lists: seq<seq<Node>>)
      requires Within(receivers, nodes) && offers.Values <= nodes
      requires Linked(receivers, kids) && Carries(receivers, lists) && Spare(nodes, receivers)
      requires Unshared(receivers, offers)
      modifies this`receivers, next`uploads, nodes`childs, kids`parent
      ensures next.uploads == old(next.uploads) + AllUploads(senders, medias, |medias|)
      ensures receivers == Rewired(old(receivers), medias, offers, |medias|)
      ensures Within(receivers, nodes)
      ensures Linked(receivers, kids) && Carries(receivers, lists) && Spare(nodes, receivers)
    {
      ghost var known, uploads := receivers, next.uploads;
      var m := 0;
      while m < |medias|
        invariant 0 <= m <= |medias|
        invariant next.uploads == uploads + AllUploads(senders, medias, m)
        invariant receivers == Rewired(known, medias, offers, m) && Within(receivers, nodes)
        invariant Linked(receivers, kids) && Carries(receivers, lists) && Spare(nodes, receivers)
      {
        TryNext(next, uploads, medias, offers, m, known, kids, nodes, lists);
        m := m + 1;
      }
    }

    method TryNext(next: Conn, ghost uploads: seq<Upload>, medias: seq<Media>, offers: Offers, m: nat,
                   ghost known: seq<Node>, ghost kids: set<Node>, ghost nodes: set<Node>, ghost lists: seq<seq<Node>>)
      requires m < |medias| && Within(receivers, nodes) && offers.Values <= nodes
      requires Linked(receivers, kids) && Carries(receivers, lists) && Spare(nodes, receivers)
      requires Unshared(known, offers) && receivers == Rewired(known, medias, offers, m)
      requires next.uploads == uploads + AllUploads(senders, medias, m)
      modifies this`receivers, next`uploads, nodes`childs, kids`parent
      ensures next.uploads == uploads + AllUploads(senders, medias, m + 1)
      ensures receivers == Rewired(known, medias, offers, m + 1) && Within(receivers, nodes)
      ensures Linked(receivers, kids) && Carries(receivers, lists) && Spare(nodes, receivers)
    {
      RewiredMembers(known, medias, offers, m);
      TryMedia(medias, offers, m, kids, nodes, lists);
      HandOver(next, medias, m, uploads);
    }

    // One media: every sender it has a codec for goes to the connection.
    method HandOver(next: Conn, medias: seq<Media>, m: nat, ghost uploads: seq<Upload>)
      requires m < |medias| && next.uploads == uploads + AllUploads(senders, medias, m)
      modifies next`uploads
      ensures next.uploads == uploads + AllUploads(senders, medias, m + 1)
    {
      ghost var before := next.uploads;
      if medias[m].direction.Sendonly? {
        for i := 0 to |senders|
          invariant next.uploads == before + Uploads(senders, medias, m, i)
        {
          if senders[i].codec in medias[m].matches {
            next.AddTrack(m, medias[m].matches[senders[i].codec], senders[i]);
          }
        }
      } else {
        NoUploads(senders, medias, m, |senders|);
      }
    }

    // One media: its first taker, if any, hands its consumers to the new track.
    method TryMedia(medias: seq<Media>, offers: Offers, m: nat, ghost kids: set<Node>, ghost nodes: set<Node>,
                    ghost lists: seq<seq<Node>>)
      requires m < |medias| && (forall r :: r in receivers ==> r in nodes) && offers.Values <= nodes
      requires Linked(receivers, kids) && Carries(receivers, lists) && Spare(nodes, receivers)
      requires Unused(receivers, offers, m)
      modifies this`receivers, nodes`childs, kids`parent
      ensures receivers == Tried(old(receivers), medias, offers, m)
      ensures Within(receivers, nodes)
      ensures Linked(receivers, kids) && Carries(receivers, lists) && Spare(nodes, receivers)
    {
      if medias[m].direction.Recvonly? {
        var i := 0;
        while i < |receivers| && !Takes(receivers, medias, offers, m, i)
          invariant 0 <= i <= |receivers|
          invariant Slot(receivers, medias, offers, m, 0) == Slot(receivers, medias, offers, m, i)
        {
          i := i + 1;
        }
        if i < |receivers| {
          ReplaceAt(i, offers[(m, i)], kids);
        }
      }
    }

    // receiver.Replace(track); p.receivers[i] = track
    method ReplaceAt(i: nat, track: Node, ghost kids: set<Node>)
      requires i < |receivers| && Linked(receivers, kids)
      requires track !in receivers && track.childs == []
      modifies this`receivers, {receivers[i], track}`childs, kids`parent
      ensures receivers == old(receivers)[i := track] && Linked(receivers, kids)
      ensures old(receivers[i]).childs == []
      ensures forall k :: 0 <= k < |receivers| ==> receivers[k].childs == old(receivers[k].childs)
    {
      var receiver := receivers[i];
      MoveNode(track, receiver);
      receivers := receivers[i := track];
    }

    // `outcome` is what GetProducer returns for the retry; `respawned` is whether a worker runs on.
    method Reconnect(worker: nat, outcome: Conn?, medias: seq<Media>, offers: Offers,
                     ghost kids: set<Node>)
      returns (respawned: bool)
      requires Valid() && (workerID == worker ==> conn != null)
      requires outcome == null || outcome != conn
      requires Linked(receivers, kids) && FreshTracks(receivers, offers)
      modifies this`conn, this`receivers, conn, outcome, receivers`childs, offers.Values`childs, kids`parent
      ensures Valid()
      ensures View() == ReconnectLife(old(View()), worker, if outcome == null then None else Some(outcome.id))
      ensures respawned == (old(workerID) == worker && outcome != null)
      ensures respawned ==> old(conn).stops == old(conn.stops) + 1 && conn == outcome
                            && receivers == Rewired(old(receivers), medias, offers, |medias|)
      ensures respawned ==> outcome.uploads == old(outcome.uploads) + AllUploads(senders, medias, |medias|)
      ensures outcome != null ==> outcome.stops == old(outcome.stops) && (!respawned ==> unchanged(outcome))
      ensures !respawned ==> conn == old(conn) && receivers == old(receivers)
                             && (conn != null ==> conn.stops == old(conn.stops))
      ensures Linked(receivers, kids) && |receivers| == |old(receivers)|
      ensures forall i :: 0 <= i < |receivers| ==> receivers[i].childs == old(receivers[i].childs)
    {
      if workerID != worker || outcome == null {
        return false;
      }
      Adopt(outcome, medias, offers, kids);
      respawned := true;
    }

    // Hands the consumers to the new connection, then stops the one it replaces.
    method Adopt(next: Conn, medias: seq<Media>, offers: Offers, ghost kids: set<Node>)
      requires conn != null && conn != next
      requires Linked(receivers, kids) && FreshTracks(receivers, offers)
      modifies this`conn, this`receivers, conn`stops, next`uploads, receivers`childs, offers.Values`childs, kids`parent
      ensures conn == next && old(conn).stops == old(conn.stops) + 1
      ensures next.uploads == old(next.uploads) + AllUploads(senders, medias, |medias|)
      ensures receivers == Rewired(old(receivers), medias, offers, |medias|)
      ensures Linked(receivers, kids)
      ensures forall i :: 0 <= i < |receivers| ==> receivers[i].childs == old(receivers[i].childs)
    {
      Rewire(next, medias, offers, kids);
      conn.Stop();
      conn := next;
    }
  }
}
