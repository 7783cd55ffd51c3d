/**
 The table from pids to mailboxes: 4096 chains, a mailbox in the chain its owner hashes to.
 The kernel's hash function is a parameter; only its range matters.
 */
module HashTables {
  import opened MailboxObject

  const MAILBOX_HASHTABLE_SIZE := 4096

  /** The first position of key in a chain, or its length. */
  function Find(chain: seq<Mailbox>, key: int): (i: nat)
    ensures i <= |chain|
    ensures i < |chain| ==> chain[i].owner == key
    ensures forall j :: 0 <= j < i ==> chain[j].owner != key
  {
    if chain == [] || chain[0].owner == key then 0 else 1 + Find(chain[1..], key)
  }

  class HashTable {
    const hash32: int -> nat
    const buckets: array<seq<Mailbox>>
    ghost var contents: map<int, Mailbox>

    /** mailbox_hash: the bucket that the kernel's hash of the key falls into */
    function Hash(key: int): (h: nat)
      ensures h < MAILBOX_HASHTABLE_SIZE
      ensures (hash32(key) - h) % MAILBOX_HASHTABLE_SIZE == 0
    {
      hash32(key) % MAILBOX_HASHTABLE_SIZE
    }

    /** Chain h holds exactly the entries of the map whose keys hash to h, each once. */
    ghost predicate ChainOk(chain: seq<Mailbox>, h: nat, m: map<int, Mailbox>) {
      && (forall i :: 0 <= i < |chain| ==>
            Hash(chain[i].owner) == h && chain[i].owner in m && m[chain[i].owner] == chain[i])
      && (forall i, j :: 0 <= i < j < |chain| ==> chain[i].owner != chain[j].owner)
      && (forall k :: k in m && Hash(k) == h ==> m[k] in chain)
    }

    ghost predicate Valid()
      reads this, buckets
    {
      && buckets.Length == MAILBOX_HASHTABLE_SIZE
      && (forall k :: k in contents ==> contents[k].owner == k)
      && (forall h :: 0 <= h < MAILBOX_HASHTABLE_SIZE ==> ChainOk(buckets[h], h, contents))
    }

    /** mailbox_manager_init */
    constructor (hash32: int -> nat)
      ensures Valid() && contents == map[] && fresh(buckets)
    {
      this.hash32 := hash32;
      buckets := new seq<Mailbox>[MAILBOX_HASHTABLE_SIZE];
      contents := map[];
      new;
      for i := 0 to MAILBOX_HASHTABLE_SIZE
        modifies buckets
        invariant forall h :: 0 <= h < i ==> buckets[h] == []
      {
        buckets[i] := [];
      }
    }

    /** __hashtable_get */
    method Get(key: int) returns (mailbox: Mailbox?)
      requires Valid()
      ensures mailbox == if key in contents then contents[key] else null
    {
      var chain := buckets[Hash(key)];
      assert ChainOk(chain, Hash(key), contents);
      var i := 0;
      while i < |chain|
        invariant 0 <= i <= |chain|
        invariant forall j :: 0 <= j < i ==> chain[j].owner != key
      {
        if chain[i].owner == key {
          return chain[i];
        }
        i := i + 1;
      }
      return null;
    }

    /** __hashtable_remove: that key goes, every other key keeps its mailbox. */
    method Remove(key: int)
      requires Valid()
      modifies this, buckets
      ensures Valid() && contents == old(contents) - {key}
    {
      var mailbox := Get(key);
      if mailbox != null {
        Unhook(key);
      }
    }

    /** hlist_del of the entry with this key */
    method Unhook(key: int)
      requires Valid() && key in contents
      modifies this, buckets
      ensures Valid() && contents == old(contents) - {key}
    {
      var h := Hash(key);
      var chain := buckets[h];
      var k := Find(chain, key);
      assert ChainOk(chain, h, contents) && contents[key] in chain;
      ghost var before := contents;
      buckets[h] := chain[..k] + chain[k + 1..];
      contents := contents - {key};
      forall g | 0 <= g < MAILBOX_HASHTABLE_SIZE ensures ChainOk(buckets[g], g, contents) {
        if g != h { OtherChain(old(buckets[g]), g, before, key); }
      }
    }

    /** __hashtable_put of a mailbox under its owner's pid: an older entry is replaced. */
    method Put(key: int, mailbox: Mailbox)
      requires Valid() && mailbox.owner == key
      modifies this, buckets
      ensures Valid() && contents == old(contents)[key := mailbox]
    {
      Remove(key);
      var h := Hash(key);
      ghost var before, chain := contents, buckets[h];
      assert ChainOk(chain, h, before);
      buckets[h] := [mailbox] + buckets[h];
      contents := contents[key := mailbox];
      forall g | 0 <= g < MAILBOX_HASHTABLE_SIZE ensures ChainOk(buckets[g], g, contents) {
        if g != h {
          assert ChainOk(buckets[g], g, before);
        }
      }
    }

    lemma OtherChain(chain: seq<Mailbox>, g: nat, m: map<int, Mailbox>, key: int)
      requires ChainOk(chain, g, m) && Hash(key) != g
      ensures ChainOk(chain, g, m - {key})
    {
    }

  }
}
