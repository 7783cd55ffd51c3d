/**
 Messages and their cache: the length check, the fixed buffer, and what is allocated.
 */
module MessageStore {
  import opened Codes
  import opened MailboxSpec

  type Byte = bv8

  /** A message as it crosses the system call: who sent it, how long it is, its bytes. */
  datatype Envelope = Envelope(sender: int, len: int, body: seq<Byte>)

  class Message {
    const id: MsgId
    var sender: int
    var len: int
    const msg: array<Byte>

    constructor (id: MsgId)
      ensures this.id == id && msg.Length == MAX_MSG_SIZE && fresh(msg)
    {
      this.id := id;
      sender := 0;
      len := 0;
      msg := new Byte[MAX_MSG_SIZE](_ => 0);
    }

    ghost predicate Filled(sender: int, text: seq<Byte>, len: int)
      reads this, msg
    {
      && msg.Length == MAX_MSG_SIZE && 0 <= len <= MAX_MSG_SIZE && len <= |text|
      && this.sender == sender && this.len == len && msg[..len] == text[..len]
    }

    /** copy_from_user into the buffer; `text` is what can be read at the user's address */
    method CopyIn(text: seq<Byte>, n: nat) returns (failed: bool)
      requires n <= msg.Length
      modifies msg
      ensures failed == (|text| < n)
      ensures !failed ==> msg[..n] == text[..n]
      ensures msg[n..] == old(msg[n..])
    {
      var i := 0;
      while i < n && i < |text|
        invariant 0 <= i <= n && i <= |text|
        invariant msg[..i] == text[..i]
        invariant msg[n..] == old(msg[n..])
      {
        msg[i] := text[i];
        i := i + 1;
      }
      failed := i < n;
    }

    /** The three copies a receive makes to the user. */
    method CopyOut() returns (e: Envelope)
      requires msg.Length == MAX_MSG_SIZE && 0 <= len <= MAX_MSG_SIZE
      ensures e == Envelope(sender, len, msg[..len])
    {
      var body: seq<Byte> := [];
      for i := 0 to len
        invariant body == msg[..i]
      {
        body := body + [msg[i]];
      }
      e := Envelope(sender, len, body);
    }
  }

  /** The message cache. */
  class Store {
    var next: MsgId
    var objects: map<MsgId, Message>
    var freed: set<MsgId>

    /** The messages allocated and not freed. */
    function Live(): set<MsgId>
      reads this
    {
      objects.Keys
    }

    ghost predicate Valid()
      reads this
    {
      && Live() !! freed && (forall m: MsgId :: m < next <==> m in Live() || m in freed)
      && (forall m :: m in objects ==> objects[m].id == m)
    }

    constructor ()
      ensures Valid() && next == 0 && objects == map[]
    {
      next := 0;
      objects := map[];
      freed := {};
    }

    /** message_create: an error leaves the cache with the same messages, success adds exactly
        one, holding the sender and the first len bytes at the user's address. */
    method Create(sender: int, text: seq<Byte>, len: int, granted: bool) returns (code: int, message: Message?)
      requires Valid()
      modifies this
      ensures Valid()
      ensures code == MSG_LENGTH_ERROR <==> len < 0 || len > MAX_MSG_SIZE
      ensures code == MAILBOX_ERROR <==> 0 <= len <= MAX_MSG_SIZE && !granted
      ensures code == MSG_ARG_ERROR <==> 0 <= len <= MAX_MSG_SIZE && granted && |text| < len
      ensures code == 0 <==> 0 <= len <= MAX_MSG_SIZE && granted && len <= |text|
      ensures code == 0 <==> message != null
      ensures message == null ==> objects == old(objects)
      ensures message != null ==>
                && fresh(message) && fresh(message.msg) && message.id !in old(Live()) + old(freed)
                && objects == old(objects)[message.id := message] && message.Filled(sender, text, len)
    {
      if len > MAX_MSG_SIZE || len < 0 {
        return MSG_LENGTH_ERROR, null;
      }
      if !granted {
        return MAILBOX_ERROR, null;
      }
      var m := new Message(next);
      next := next + 1;
      objects := objects[m.id := m];
      m.sender := sender;
      m.len := len;
      var failed := m.CopyIn(text, len);
      if failed {
        Destroy(m.id);
        return MSG_ARG_ERROR, null;
      }
      return 0, m;
    }

    /** message_destroy */
    method Destroy(m: MsgId)
      requires m in Live()
      modifies this`objects, this`freed
      ensures objects == old(objects) - {m} && freed == old(freed) + {m}
      ensures old(Valid()) ==> Valid()
    {
      objects := objects - {m};
      freed := freed + {m};
    }
  }
}
