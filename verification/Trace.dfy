/** The traced events that the collector produces and both canonicalizers consume. */
module Trace {
  import opened Text

  const U32_MAX := 0xFFFF_FFFF
  type U32 = n: int | 0 <= n <= 0xFFFF_FFFF
  const U64_MAX := 0xFFFF_FFFF_FFFF_FFFF
  type U64 = n: int | 0 <= n <= 0xFFFF_FFFF_FFFF_FFFF

  /** One kernel process lifetime; the generation tells uses of a reused PID apart. */
  datatype Lifetime = Lifetime(pid: U32, generation: U32)

  /** One executable image within a lifetime. */
  datatype Instance = Instance(lifetime: Lifetime, epoch: U32)

  datatype Observation =
    | Content(hash: string)
    | Missing(pathHash: string)
    | Unreadable(pathHash: string)
    | NonRegular(pathHash: string)
  {
    function Identity(): string {
      match this
      case Content(hash) => hash
      case Missing(p) => "missing:" + p
      case Unreadable(p) => "unreadable:" + p
      case NonRegular(p) => "non-regular:" + p
    }

    function ContentHash(): Option<string> {
      if Content? then Some(hash) else None
    }
  }

  const SYSTEM_STATE_SENTINEL := "SYSTEM_STATE:" + "0000000000000000000000000000000000000000000000000000000000000000"

  datatype Event =
    | Exec(process: Instance, observation: Observation)
    | Fork(parent: Instance, child: Instance)
    | FileOpen(process: Instance, path: string, flags: U32, fd: int, external: bool, observation: Observation)
    | FileMmap(process: Instance, fd: int, prot: U32, flags: U32, mapped: Option<string>, external: bool,
               seen: Option<Observation>)
    | FileClose(process: Instance, fd: int, closed: Option<string>, external: bool, seen: Option<Observation>)
    | FileRename(process: Instance, from: string, to: string, flags: U32, external: bool, observation: Observation)
    | FileUnlink(process: Instance, path: string, flags: U32, external: bool, observation: Observation)
    | Exit(process: Instance, exitCode: int)

  /** Linux O_ACCMODE is the low two bits: 0 reads, 1 writes, 2 and 3 do both. */
  predicate CanRead(flags: U32) { flags % 4 != 1 }
  predicate CanWrite(flags: U32) { flags % 4 != 0 }

  /** PROT_WRITE on a mapping that is shared: only these write back to the file. */
  predicate IsSharedWrite(prot: U32, flags: U32) { prot / 2 % 2 == 1 && flags % 2 == 1 }
}
