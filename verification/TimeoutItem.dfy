/** What one timeout item of the coroutine runtime stands for: one wait of one coroutine. */
module TimeoutItem {

  // A poll wait sits in the timing wheel only; a condition wait sits in the queue of its
  // condition and, when it is timed, in the wheel as well.
  datatype Kind = Poll | Cond(cond: nat, timed: bool)

  // `id` is the identity of the wait (the address of the item), `co` the coroutine that waits
  // (pArg), `deadline` the value of ullExpireTime, written once before the item is filed.
  datatype Item = Item(id: nat, co: nat, deadline: nat, kind: Kind)
}
