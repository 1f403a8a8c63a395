/** Small vocabulary shared by every module of the model. */
module Basics {

  datatype Option<+T> = None | Some(value: T)

  /** 16-bit identifiers of nets; 0 is the null net and 0xffff addresses every net. */
  type NetId = n: int | 0 <= n < 0x10000
  const NULL_NET: NetId := 0
  const BROADCAST_NET: NetId := 0xffff

  /** A user is a 16-bit number inside a net. */
  datatype UserId = UserId(net: NetId, num: NetId)
  const NULL_USER := UserId(NULL_NET, 0)

  datatype Umode = ModeInvalid | ModeNormal | ModeDnd | ModeAway | ModeOffline

  // Capacities of the fixed fields of common.h, without the terminator.
  const CHANNAME_LEN_MAX := 31
  const NICKNAME_LEN_MAX := 31
  const TOPIC_LEN_MAX := 511
  const CHANLIST_LEN_MAX := 511

  /** What ends a string in memory and on the wire. */
  const NUL: char := '\0'

  ghost predicate Distinct<T(!new)>(s: seq<T>) {
    forall i, j :: 0 <= i < j < |s| ==> s[i] != s[j]
  }

  function RemoveAt<T>(s: seq<T>, k: nat): (r: seq<T>)
    requires k < |s|
  {
    s[..k] + s[k + 1..]
  }

  /** What strncpy(.., max) into a field of max + 1 bytes keeps, and what strncmp(.., max) looks at. */
  function Clip(s: string, max: nat): (r: string)
    ensures |r| <= max
    ensures |s| <= max ==> r == s
  {
    if |s| <= max then s else s[..max]
  }
}
