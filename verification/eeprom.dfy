/** The ESP8266 EEPROM emulation the engine writes through: `EEPROM.begin`
    loads a flash image into a RAM cache, `read` and `write` work on the cache,
    and `commit` copies the cache back to flash. */
module Eeprom {

  newtype Byte = x: int | 0 <= x < 256

  /** The size passed to `EEPROM.begin`. */
  const Size: nat := 512

  type Address = i: int | 0 <= i < Size

  type Image = s: seq<Byte> | |s| == Size witness seq(Size, _ => 0)

  /** `pending` is the RAM cache, `committed` the flash contents. */
  datatype Store = Store(pending: Image, committed: Image)

  /** `EEPROM.begin`: the cache starts as a copy of flash. */
  function Begin(flash: Image): (s: Store)
    ensures forall at: Address :: Read(s, at) == flash[at]
    ensures s.committed == flash
    ensures Commit(s) == s
  {
    Store(flash, flash)
  }

  /** `EEPROM.read`: reads the cache, so it sees uncommitted writes. */
  function Read(s: Store, at: Address): Byte {
    s.pending[at]
  }

  /** `EEPROM.write`: changes one cached byte; flash is untouched. */
  function Write(s: Store, at: Address, b: Byte): (r: Store)
    ensures Read(r, at) == b
    ensures forall other: Address :: other != at ==> Read(r, other) == Read(s, other)
    ensures r.committed == s.committed
  {
    Store(s.pending[at := b], s.committed)
  }

  /** `EEPROM.commit`: flash becomes the cache; what is read does not change. */
  function Commit(s: Store): (r: Store)
    ensures r.committed == s.pending && r.pending == s.pending
    ensures forall at: Address :: Read(r, at) == Read(s, at)
  {
    Store(s.pending, s.pending)
  }

  /** `read` sees a write before it is committed; flash gets it only with the
      commit. */
  lemma ReadSeesUncommitted(s: Store, at: Address, b: Byte)
    ensures Read(Write(s, at, b), at) == b
    ensures Write(s, at, b).committed[at] == s.committed[at]
    ensures Commit(Write(s, at, b)).committed[at] == b
  {
  }

  /** Two stores that read alike everywhere and agree on flash are equal. */
  lemma SameReads(s: Store, t: Store)
    ensures (forall at: Address :: Read(s, at) == Read(t, at)) && s.committed == t.committed
            ==> s == t
  {
    if (forall at: Address :: Read(s, at) == Read(t, at)) && s.committed == t.committed {
      assert forall i :: 0 <= i < Size ==> s.pending[i] == Read(s, i);
      assert s.pending == t.pending;
    }
  }
}
