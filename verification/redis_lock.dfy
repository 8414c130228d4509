/** One lock key of one Redis server: the atomic commands the lock modules use. */
module RedisLock {

  type Owner = string

  /** What a server stores under the lock key. An entry stays in place after its
      expiry time but every command treats it as missing from then on. */
  datatype Slot = Free | Taken(owner: Owner, until: int)

  predicate Live(slot: Slot, now: int) {
    slot.Taken? && now < slot.until
  }

  predicate LiveFor(slot: Slot, owner: Owner, now: int) {
    Live(slot, now) && slot.owner == owner
  }

  /** SET key owner NX EX ttl */
  function SetNx(slot: Slot, owner: Owner, ttl: int, now: int): Slot {
    if Live(slot, now) then slot else Taken(owner, now + ttl)
  }

  /** The release script: DEL only when GET returns the caller's own value. */
  function CompareAndDelete(slot: Slot, owner: Owner, now: int): Slot {
    if LiveFor(slot, owner, now) then Free else slot
  }

  /** The renew script: EXPIRE only when GET returns the caller's own value. */
  function CompareAndExpire(slot: Slot, owner: Owner, ttl: int, now: int): Slot {
    if LiveFor(slot, owner, now) then Taken(owner, now + ttl) else slot
  }
}
