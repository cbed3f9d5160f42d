/** What the components of host fencing share. */
module FencingTypes {

  type Id = nat

  datatype HostState = FenceRequired | Fencing | Fenced | FenceFailed

  datatype Key = SegmentLock(segment: string) | HostLock(host: string)

  /** A lock key in etcd: who created it, and when its lease runs out. */
  datatype Lock = Lock(owner: Id, expires: nat)
}
