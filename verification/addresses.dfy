/** Where the control service listens: the two builders of its unix socket address,
    `address(uid)` in src/levitating_notificationd.rs (used by the control client and the
    current server) and `addres()` in src/bin/notificationd/server/varlink.rs.  The
    environment variable, the existence of `/run` and the user id are parameters. */
module Addresses {

  import opened Basics
  import opened Text

  const SOCKET_NAME: string := "levitating.notificationd"

  /** A user id (`uid_t`, 32 bits); 0 is root. */
  type Uid = n: nat | n < U32_LIMIT

  /** What the builders look at: `XDG_RUNTIME_DIR`, if set, and whether `/run` exists. */
  datatype Environment = Environment(runtimeDir: Option<string>, runExists: bool)

  /** The `unix:` address of the socket in `dir`. */
  function SocketAddress(dir: string): (r: string)
    ensures |r| == |dir| + 6 + |SOCKET_NAME|
  {
    "unix:" + dir + "/" + SOCKET_NAME
  }

  /** The directory an address names, if it has the shape of a socket address. */
  function DirOf(address: string): (r: Option<string>)
    ensures r.Some? ==> |r.value| == |address| - 6 - |SOCKET_NAME|
  {
    var n := |address|;
    if n >= 6 + |SOCKET_NAME| && address[..5] == "unix:" && address[n - 1 - |SOCKET_NAME|..] == "/" + SOCKET_NAME
    then Some(address[5..n - 1 - |SOCKET_NAME|])
    else None
  }

  /** The directory comes back out of its address. */
  lemma DirOfSocketAddress(dir: string)
    ensures DirOf(SocketAddress(dir)) == Some(dir)
  {
    var a := SocketAddress(dir);
    var n := |a|;
    assert a[..5] == "unix:";
    assert a[n - 1 - |SOCKET_NAME|..] == "/" + SOCKET_NAME;
    assert a[5..n - 1 - |SOCKET_NAME|] == dir;
  }

  /** Every text of the shape of a socket address is the address of its directory. */
  lemma SocketAddressOfDirOf(address: string)
    requires DirOf(address).Some?
    ensures SocketAddress(DirOf(address).value) == address
  {
    var n := |address|;
    var dir := DirOf(address).value;
    assert address == address[..5] + address[5..n - 1 - |SOCKET_NAME|] + address[n - 1 - |SOCKET_NAME|..];
  }

  /** The runtime directory when `XDG_RUNTIME_DIR` is unset: `/run` if it exists,
      `/var/run` otherwise. */
  function Base(runExists: bool): string {
    if runExists then "/run" else "/var/run"
  }

  /** The directory `address(uid)` uses: the variable verbatim when set; otherwise the
      base for root, and for every other user the base under an extra leading slash
      followed by `/user/` and the id. */
  function RuntimeDir(env: Environment, uid: Uid): string {
    match env.runtimeDir
    case Some(dir) => dir
    case None =>
      if uid == 0 then Base(env.runExists)
      else "/" + Base(env.runExists) + "/user/" + NatToString(uid)
  }

  /** `address(uid)`. */
  function Address(env: Environment, uid: Uid): (r: string)
    ensures DirOf(r) == Some(RuntimeDir(env, uid))
  {
    DirOfSocketAddress(RuntimeDir(env, uid));
    SocketAddress(RuntimeDir(env, uid))
  }

  /** The directory `addres()` uses: the variable verbatim when set; otherwise `/run/`
      for root and `/run/user/` and the id for every other user. */
  function VarlinkDir(runtimeDir: Option<string>, uid: Uid): string {
    match runtimeDir
    case Some(dir) => dir
    case None => if uid == 0 then "/run/" else "/run/user/" + NatToString(uid)
  }

  /** `addres()`. */
  function VarlinkAddress(runtimeDir: Option<string>, uid: Uid): (r: string)
    ensures DirOf(r) == Some(VarlinkDir(runtimeDir, uid))
  {
    DirOfSocketAddress(VarlinkDir(runtimeDir, uid));
    SocketAddress(VarlinkDir(runtimeDir, uid))
  }

  /** A set `XDG_RUNTIME_DIR` decides both addresses alike, for every user and whether
      or not `/run` exists. */
  lemma RuntimeDirWins(env: Environment, uid: Uid)
    requires env.runtimeDir.Some?
    ensures Address(env, uid) == VarlinkAddress(env.runtimeDir, uid)
    ensures Address(env, uid) == SocketAddress(env.runtimeDir.value)
  {
  }

  /** Without the variable, every user but root gets a directory starting with two
      slashes (`//run/user/1000`), so the address reads `unix://...`. */
  lemma UserDirDoubleSlash(env: Environment, uid: Uid)
    requires env.runtimeDir.None? && uid != 0
    ensures RuntimeDir(env, uid)[..2] == "//"
    ensures Address(env, uid)[..7] == "unix://"
  {
    var dir := RuntimeDir(env, uid);
    assert dir[..2] == "//";
    assert Address(env, uid)[..7] == "unix:" + dir[..2];
  }

  /** Root without the variable gets the base itself: no double slash. */
  lemma RootAddress(env: Environment)
    requires env.runtimeDir.None?
    ensures Address(env, 0) == SocketAddress(Base(env.runExists))
    ensures Address(env, 0)[5..7] == "/r" || Address(env, 0)[5..7] == "/v"
  {
  }

  /** `addres()` for root without the variable ends its directory in a slash, so a
      second slash precedes the socket name: `unix:/run//levitating.notificationd`. */
  lemma VarlinkRootDoubleSlash()
    ensures VarlinkAddress(None, 0) == "unix:/run/" + "/" + SOCKET_NAME
  {
  }

  /** For every other user without the variable and with `/run` present, the two
      builders differ by exactly the extra leading slash of `address(uid)`. */
  lemma UserAddressesDiffer(uid: Uid)
    requires uid != 0
    ensures RuntimeDir(Environment(None, true), uid) == "/" + VarlinkDir(None, uid)
    ensures Address(Environment(None, true), uid) == SocketAddress("/" + VarlinkDir(None, uid))
  {
    var digits := NatToString(uid);
    assert "/run" + "/user/" == "/run/user/";
    assert "/" + "/run" + "/user/" + digits == "/" + ("/run/user/" + digits);
  }

  /** Without `/run` and the variable, a non-root user's directory lies under
      `/var/run`, which `addres()` never uses. */
  lemma VarRunOnlyInAddress(uid: Uid)
    requires uid != 0
    ensures RuntimeDir(Environment(None, false), uid)[..9] == "//var/run"
    ensures VarlinkDir(None, uid)[..5] == "/run/"
  {
  }
}
