/**
 Log entries of one replication group and the chain their MACs form.

 A MAC is a term over the fields it covers: equal MACs come from equal fields,
 and no entry has the all-zero MAC that stands before the first one. A MAC
 therefore determines every entry before it.
 */
module MacChain {

  type HsmId = nat
  /** Everything else an entry carries: its partition and its pending transfer. */
  type Payload = nat

  const FIRST_INDEX: nat := 1

  datatype EntryMac = ZeroMac | EntryMacOf(hsm: HsmId, index: nat, payload: Payload, prev: EntryMac)

  datatype LogEntry = LogEntry(hsm: HsmId, index: nat, payload: Payload, prevMac: EntryMac, entryMac: EntryMac)

  function MacOf(e: LogEntry): (m: EntryMac) {
    EntryMacOf(e.hsm, e.index, e.payload, e.prevMac)
  }

  predicate ValidMac(e: LogEntry) {
    e.entryMac == MacOf(e)
  }

  function BuildEntry(hsm: HsmId, index: nat, payload: Payload, prevMac: EntryMac): (e: LogEntry)
    ensures ValidMac(e) && e.index == index && e.prevMac == prevMac && e.hsm == hsm
  {
    LogEntry(hsm, index, payload, prevMac, EntryMacOf(hsm, index, payload, prevMac))
  }

  /** The log index a MAC was made for; 0 stands before the first entry. */
  function Index(m: EntryMac): (i: nat) {
    if m.ZeroMac? then 0 else m.index
  }

  /** Indexes count up by one along the whole chain behind `m`. */
  predicate WellIndexed(m: EntryMac) {
    m.EntryMacOf? ==> m.index == Index(m.prev) + 1 && WellIndexed(m.prev)
  }

  /** `a` is `b` or some entry before it. */
  predicate OnChain(a: EntryMac, b: EntryMac) {
    a == b || (b.EntryMacOf? && OnChain(a, b.prev))
  }

  /** Neither of two entries precedes the other: they belong to diverged logs. */
  predicate Diverged(a: EntryMac, b: EntryMac) {
    !OnChain(a, b) && !OnChain(b, a)
  }

  lemma {:induction false} OnChainTransitive(a: EntryMac, b: EntryMac, c: EntryMac)
    requires OnChain(a, b) && OnChain(b, c)
    ensures OnChain(a, c)
  {
    if b != c { OnChainTransitive(a, b, c.prev); }
  }

  /** Two entries behind the same entry lie on one chain. */
  lemma {:induction false} SharedDescendant(a: EntryMac, b: EntryMac, c: EntryMac)
    requires OnChain(a, c) && OnChain(b, c)
    ensures !Diverged(a, b)
  {
    if a != c && b != c { SharedDescendant(a, b, c.prev); }
  }

  /** Along a well-indexed chain the index tells where an entry is. */
  lemma {:induction false} IndexAlongChain(a: EntryMac, b: EntryMac)
    requires WellIndexed(b) && OnChain(a, b)
    ensures WellIndexed(a) && Index(a) <= Index(b)
    ensures Index(a) == Index(b) ==> a == b
  {
    if a != b { IndexAlongChain(a, b.prev); }
  }
}
