/** Ring-buffer records as the kernel programs submit them and the collector reads them. */
module Records {
  import opened Text
  import opened Trace

  /**
   A record of one of the nine event kinds, or one that userspace cannot interpret (unknown kind, or too short).
   Paths are the captured bytes, as long as the record's length field says.
   */
  datatype Record =
    | OpenRecord(tgid: U32, fd: int, flags: U32, external: bool)
    | CloseRecord(tgid: U32, fd: int, external: bool)
    | MmapRecord(tgid: U32, fd: int, prot: U32, flags: U32, external: bool)
    | RenameSource(pid: U32, tgid: U32, opId: nat, dfd: int, flags: U32, external: bool, path: string)
    | RenameDestination(pid: U32, tgid: U32, opId: nat, dfd: int, flags: U32, external: bool, path: string)
    | UnlinkRecord(pid: U32, tgid: U32, opId: nat, dfd: int, flags: U32, external: bool, path: string)
    | ExecRecord(tgid: U32)
    | ForkRecord(parent: U32, child: U32)
    | ExitRecord(tgid: U32, exitCode: int)
    | Uninterpretable

  /**
   A drained record with its timestamp and with what userspace then sees of the system: the path that a relative
   (or opened) name resolves to, the identity of the file concerned and, for an exchange, that of the other one.
   */
  datatype Drained = Drained(time: nat, record: Record, resolved: string, now: Observation, other: Observation)

  predicate IsContinuation(c: char)
  {
    0x80 <= c as int <= 0xBF
  }

  /** Well-formed UTF-8 (RFC 3629, section 4), on a string of bytes. */
  predicate ValidUtf8(s: string)
  {
    if s == "" then true
    else
      var b := s[0] as int;
      if b < 0x80 then ValidUtf8(s[1..])
      else if 0xC2 <= b <= 0xDF then |s| >= 2 && IsContinuation(s[1]) && ValidUtf8(s[2..])
      else if 0xE0 <= b <= 0xEF then
        && |s| >= 3 && IsContinuation(s[1]) && IsContinuation(s[2])
        && (b == 0xE0 ==> s[1] as int >= 0xA0) && (b == 0xED ==> s[1] as int <= 0x9F)
        && ValidUtf8(s[3..])
      else if 0xF0 <= b <= 0xF4 then
        && |s| >= 4 && IsContinuation(s[1]) && IsContinuation(s[2]) && IsContinuation(s[3])
        && (b == 0xF0 ==> s[1] as int >= 0x90) && (b == 0xF4 ==> s[1] as int <= 0x8F)
        && ValidUtf8(s[4..])
      else false
  }

  function TrimNul(s: string): string
  {
    if s != "" && s[|s| - 1] == '\0' then TrimNul(s[..|s| - 1]) else s
  }

  /** The path of a rename or unlink record, unless it is empty or not text. */
  function DecodePath(bytes: string): Option<string>
  {
    if ValidUtf8(bytes) && TrimNul(bytes) != "" then Some(TrimNul(bytes)) else None
  }

  /** An absolute path is taken as it is; for a relative one the system is asked. */
  function ResolvePath(raw: string, resolved: string): string
  {
    if "/" <= raw then raw else resolved
  }
}
