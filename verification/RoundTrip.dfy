/**
 What is sent is what is received: a message on its way through the cache, the buffer, the
 mailbox and back, across failed copies.
 */
module RoundTrips {
  import opened Codes
  import opened MailboxSpec
  import opened BoundedFifo
  import opened MessageStore
  import opened MailboxObject

  /** Each id once, each an allocated message within the size limit. */
  ghost predicate Queueable(ids: seq<MsgId>, store: Store)
    reads store, store.objects.Values
  {
    && (forall i, j :: 0 <= i < j < |ids| ==> ids[i] != ids[j])
    && (forall i :: 0 <= i < |ids| ==> ids[i] in store.objects && WellFormed(store.objects[ids[i]]))
  }

  predicate WellFormed(message: Message)
    reads message
  {
    message.msg.Length == MAX_MSG_SIZE && 0 <= message.len <= MAX_MSG_SIZE
  }

  /** The mailbox is open, its count exact, and its messages are allocated. */
  ghost predicate Ready(box: Mailbox, store: Store)
    reads box, store, store.objects.Values
  {
    box.Valid() && store.Valid() && box.stopped == 0 && Counted(box.View()) && Queueable(box.messages, store)
  }

  /** A non-blocking remove from a mailbox that has a message: it comes from the head. */
  method TakeFirst(box: Mailbox) returns (m: MsgId)
    requires box.Valid() && Counted(box.View()) && box.messages != []
    modifies box
    ensures m == old(box.messages)[0] && box.messages == old(box.messages)[1..]
    ensures box.Valid() && Counted(box.View()) && box.stopped == old(box.stopped)
  {
    var r := box.RemoveMessage(0, false, []);
    m := r.m;
  }

  /** A receive whose copy to the user fails: the message is back at the head. */
  method FailToReceive(box: Mailbox) returns (m: MsgId)
    requires box.Valid() && Counted(box.View()) && box.messages != [] && box.stopped == 0
    modifies box
    ensures m == old(box.messages)[0] && box.messages == old(box.messages)
    ensures box.Valid() && Counted(box.View()) && box.stopped == 0
  {
    m := TakeFirst(box);
    var r := box.AddMessage(0, m, true, true, []);
  }

  /** What the user gets of a message. */
  ghost function EnvelopeOf(message: Message): Envelope
    requires WellFormed(message)
    reads message, message.msg
  {
    Envelope(message.sender, message.len, message.msg[..message.len])
  }

  /** A receive whose copy fails any number of times first: each failure had the head in hand;
      then the head comes out, as it went in, and is freed. */
  method ReceiveOne(box: Mailbox, store: Store, failures: nat) returns (m: MsgId, e: Envelope, failed: seq<MsgId>)
    requires Ready(box, store) && box.messages != []
    modifies box, store
    ensures Ready(box, store)
    ensures m == old(box.messages)[0] && box.messages == old(box.messages)[1..]
    ensures m in old(store.objects) && store.objects == old(store.objects) - {m}
    ensures WellFormed(old(store.objects)[m]) && e == EnvelopeOf(old(store.objects)[m])
    ensures |failed| == failures && forall i :: 0 <= i < failures ==> failed[i] == m
  {
    failed := [];
    for i := 0 to failures
      invariant box.Valid() && Counted(box.View()) && box.stopped == 0 && box.messages == old(box.messages)
      invariant store.Valid() && store.objects == old(store.objects)
      invariant |failed| == i && forall j :: 0 <= j < i ==> failed[j] == old(box.messages)[0]
    {
      var back := FailToReceive(box);
      failed := failed + [back];
    }
    m := TakeFirst(box);
    e := store.objects[m].CopyOut();
    store.Destroy(m);
  }

  /** Receives until the mailbox is empty: every message comes out, in order, as it went in. */
  method ReceiveAll(box: Mailbox, store: Store, failures: nat) returns (got: seq<MsgId>, envelopes: seq<Envelope>)
    requires Ready(box, store)
    modifies box, store
    ensures box.messages == [] && got == old(box.messages) && |envelopes| == |got|
    ensures forall i :: 0 <= i < |got| ==>
              && got[i] in old(store.objects) && WellFormed(old(store.objects)[got[i]])
              && envelopes[i] == EnvelopeOf(old(store.objects)[got[i]])
  {
    got, envelopes := [], [];
    ghost var all := box.messages;
    while box.messages != []
      invariant Ready(box, store)
      invariant |got| == |envelopes| <= |all| && got == all[..|got|] && box.messages == all[|got|..]
      invariant store.objects.Keys <= old(store.objects).Keys
      invariant forall m :: m in store.objects ==> store.objects[m] == old(store.objects)[m]
      invariant forall i :: 0 <= i < |got| ==>
                  && got[i] in old(store.objects) && WellFormed(old(store.objects)[got[i]])
                  && envelopes[i] == EnvelopeOf(old(store.objects)[got[i]])
      decreases |box.messages|
    {
      var m, e, failed := ReceiveOne(box, store, failures);
      got, envelopes := got + [m], envelopes + [e];
    }
  }

  /** A non-blocking send: the new message is last in the list, or nothing changed. */
  method SendOne(box: Mailbox, store: Store, sender: int, text: seq<Byte>, len: int, granted: bool)
    returns (code: int, message: Message?)
    requires Ready(box, store)
    modifies box, store
    ensures code == MSG_LENGTH_ERROR <==> len < 0 || len > MAX_MSG_SIZE
    ensures code == MAILBOX_ERROR <==> 0 <= len <= MAX_MSG_SIZE && !granted
    ensures code == MSG_ARG_ERROR <==> 0 <= len <= MAX_MSG_SIZE && granted && |text| < len
    ensures code == MAILBOX_FULL <==>
              0 <= len <= MAX_MSG_SIZE && granted && len <= |text| && |old(box.messages)| == CAPACITY
    ensures code == 0 <==>
              0 <= len <= MAX_MSG_SIZE && granted && len <= |text| && |old(box.messages)| < CAPACITY
    ensures code != 0 ==> box.messages == old(box.messages)
    ensures code == 0 ==>
              && message != null && fresh(message) && message.id !in old(store.objects)
              && Ready(box, store) && box.messages == old(box.messages) + [message.id]
              && message.id in store.objects && store.objects[message.id] == message
              && WellFormed(message) && 0 <= len <= |text| && EnvelopeOf(message) == Envelope(sender, len, text[..len])
  {
    code, message := store.Create(sender, text, len, granted);
    if code != 0 {
      return;
    }
    var r := box.AddMessage(0, message.id, false, false, []);
    code := r.code;
  }

  /** A send into a mailbox that may already hold messages, then receives, whose copies to the
      user fail any number of times first: the messages come out in order, the new one last,
      with the sender, the length and exactly the bytes sent. A send that fails returns the
      code of message_create or of the FIFO. */
  method RoundTrip(box: Mailbox, store: Store, sender: int, text: seq<Byte>, len: int, granted: bool, failures: nat)
    returns (code: int, got: seq<MsgId>, envelopes: seq<Envelope>)
    requires Ready(box, store)
    modifies box, store
    ensures code == MSG_LENGTH_ERROR <==> len < 0 || len > MAX_MSG_SIZE
    ensures code == MAILBOX_ERROR <==> 0 <= len <= MAX_MSG_SIZE && !granted
    ensures code == MSG_ARG_ERROR <==> 0 <= len <= MAX_MSG_SIZE && granted && |text| < len
    ensures code == MAILBOX_FULL <==>
              0 <= len <= MAX_MSG_SIZE && granted && len <= |text| && |old(box.messages)| == CAPACITY
    ensures code == 0 <==>
              0 <= len <= MAX_MSG_SIZE && granted && len <= |text| && |old(box.messages)| < CAPACITY
    ensures code != 0 ==> box.messages == old(box.messages)
    ensures code == 0 ==>
              && box.messages == [] && |got| == |old(box.messages)| + 1 == |envelopes|
              && got[..|old(box.messages)|] == old(box.messages)
              && 0 <= len <= |text| && envelopes[|old(box.messages)|] == Envelope(sender, len, text[..len])
  {
    got, envelopes := [], [];
    var message;
    code, message := SendOne(box, store, sender, text, len, granted);
    if code == 0 {
      got, envelopes := ReceiveAll(box, store, failures);
    }
  }
}
