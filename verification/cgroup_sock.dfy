/**
 * Attach types of cgroup-socket programs: where a `CgroupSock` program is
 * attached, how the attach type is parsed from its textual name, and which
 * kernel `bpf_attach_type` constant it stands for.
 */
module CgroupSock {
  import opened Wrappers
  import opened Bytes

  // The kernel's `enum bpf_attach_type` values used by this program type
  // (include/uapi/linux/bpf.h).
  const BPF_CGROUP_INET_SOCK_CREATE: u32 := 2
  const BPF_CGROUP_INET4_POST_BIND: u32 := 12
  const BPF_CGROUP_INET6_POST_BIND: u32 := 13
  const BPF_CGROUP_INET_SOCK_RELEASE: u32 := 34

  /** The hook points a cgroup-socket program can be attached to. */
  datatype CgroupSockAttachType = PostBind4 | PostBind6 | SockCreate | SockRelease

  /** The error of a failed parse; it carries the rejected input. */
  datatype InvalidAttachType = InvalidAttachType(value: string)

  /** The textual name each attach type is parsed from. */
  function Name(t: CgroupSockAttachType): string
  {
    match t
    case PostBind4 => "post_bind4"
    case PostBind6 => "post_bind6"
    case SockCreate => "sock_create"
    case SockRelease => "sock_release"
  }

  /**
   * The default attach type. The kernel treats an attach type of 0 for this
   * program type as socket creation, so the default is the same.
   */
  function Default(): (t: CgroupSockAttachType)
    ensures IntoBpfAttachType(t) == BPF_CGROUP_INET_SOCK_CREATE
    ensures Name(t) == "sock_create"
  {
    SockCreate
  }

  /** The kernel attach-type constant an attach type converts to. */
  function IntoBpfAttachType(t: CgroupSockAttachType): (code: u32)
    ensures code in {BPF_CGROUP_INET4_POST_BIND, BPF_CGROUP_INET6_POST_BIND,
                     BPF_CGROUP_INET_SOCK_CREATE, BPF_CGROUP_INET_SOCK_RELEASE}
  {
    match t
    case PostBind4 => BPF_CGROUP_INET4_POST_BIND
    case PostBind6 => BPF_CGROUP_INET6_POST_BIND
    case SockCreate => BPF_CGROUP_INET_SOCK_CREATE
    case SockRelease => BPF_CGROUP_INET_SOCK_RELEASE
  }

  /**
   * Parses an attach type from its exact name. Every other string is
   * rejected with an error holding exactly that string.
   */
  function TryFrom(value: string): (r: Result<CgroupSockAttachType, InvalidAttachType>)
    ensures r.Ok? ==> Name(r.value) == value
    ensures r.Ok? <==> exists t :: Name(t) == value
    ensures r.Err? ==> r.error == InvalidAttachType(value)
  {
    match value
    case "post_bind4" => Ok(PostBind4)
    case "post_bind6" => Ok(PostBind6)
    case "sock_create" => Ok(SockCreate)
    case "sock_release" => Ok(SockRelease)
    case _ => Err(InvalidAttachType(value))
  }

  /** Every attach type is parsed back from its own name. */
  lemma TryFromName(t: CgroupSockAttachType)
    ensures TryFrom(Name(t)) == Ok(t)
  {
  }

  /** Distinct accepted strings give distinct attach types. */
  lemma TryFromInjective(a: string, b: string)
    requires TryFrom(a).Ok? && TryFrom(b).Ok?
    ensures TryFrom(a) == TryFrom(b) ==> a == b
  {
  }

  /** The conversion to kernel constants is one-to-one. */
  lemma IntoBpfAttachTypeInjective(s: CgroupSockAttachType, t: CgroupSockAttachType)
    ensures IntoBpfAttachType(s) == IntoBpfAttachType(t) ==> s == t
  {
  }

  /** Parsing a name then converting it gives a fixed kernel constant per name. */
  lemma ParseThenConvert()
    ensures TryFrom("post_bind4").Ok? && IntoBpfAttachType(TryFrom("post_bind4").value) == BPF_CGROUP_INET4_POST_BIND
    ensures TryFrom("post_bind6").Ok? && IntoBpfAttachType(TryFrom("post_bind6").value) == BPF_CGROUP_INET6_POST_BIND
    ensures TryFrom("sock_create").Ok? && IntoBpfAttachType(TryFrom("sock_create").value) == BPF_CGROUP_INET_SOCK_CREATE
    ensures TryFrom("sock_release").Ok? && IntoBpfAttachType(TryFrom("sock_release").value) == BPF_CGROUP_INET_SOCK_RELEASE
  {
  }
}
