/**
 * The server's configuration: a display name and a listening port, both
 * checked on every construction path.
 */
module ServerConfigs {
  import opened Wrappers
  import opened Text

  /**
   * The port constants of the environment: the inclusive bounds and the
   * port used when none is chosen. Their values are not part of the model.
   */
  datatype PortRange = PortRange(min: int, max: int, default: int)
  {
    /** The condition `min <= default <= max`; the no-argument constructor succeeds exactly when it holds. */
    predicate Consistent() {
      min <= default <= max
    }
  }

  /** The record's two components. */
  datatype ServerConfig = ServerConfig(name: string, port: int)
  {
    /** What validation guarantees of every config that exists. */
    predicate Valid(ports: PortRange) {
      !IsBlank(name) && ports.min <= port <= ports.max
    }
  }

  const DEFAULT_NAME: string := "Server"

  /** The name the no-argument constructor uses; it passes the blank check. */
  function DefaultName(): (r: string)
    ensures r == "Server"
    ensures !IsBlank(r)
  {
    assert !IsWhitespace(DEFAULT_NAME[0]);
    DEFAULT_NAME
  }

  /**
   * The canonical constructor with its `validateArgs`: a null name is a
   * NullPointerException, a blank name or a port outside the inclusive
   * bounds an IllegalArgumentException; otherwise both values are kept.
   */
  function Create(name: Option<string>, port: int, ports: PortRange): (r: Result<ServerConfig, JavaException>)
    ensures r.Success? <==> name.Some? && !IsBlank(name.value) && ports.min <= port <= ports.max
    ensures r.Success? ==> r.value.name == name.value && r.value.port == port && r.value.Valid(ports)
    ensures name.None? ==> r == Failure(NullPointerException)
    ensures name.Some? && r.Failure? ==> r == Failure(IllegalArgumentException)
  {
    if name.None? then Failure(NullPointerException)
    else if IsBlank(name.value) then Failure(IllegalArgumentException)
    else if !(ports.min <= port <= ports.max) then Failure(IllegalArgumentException)
    else Success(ServerConfig(name.value, port))
  }

  /**
   * The no-argument constructor, which delegates to the canonical one. It
   * succeeds exactly when the default port lies within the bounds.
   */
  function CreateDefault(ports: PortRange): (r: Result<ServerConfig, JavaException>)
    ensures r.Success? <==> ports.Consistent()
    ensures ports.Consistent() ==> r == Success(ServerConfig("Server", ports.default))
    ensures !ports.Consistent() ==> r == Failure(IllegalArgumentException)
  {
    Create(Some(DefaultName()), ports.default, ports)
  }

  /** Both ends of the port range are accepted and the ports just outside are not. */
  lemma PortBoundsInclusive(name: string, ports: PortRange)
    requires !IsBlank(name) && ports.min <= ports.max
    ensures Create(Some(name), ports.min, ports).Success?
    ensures Create(Some(name), ports.max, ports).Success?
    ensures Create(Some(name), ports.min - 1, ports) == Failure(IllegalArgumentException)
    ensures Create(Some(name), ports.max + 1, ports) == Failure(IllegalArgumentException)
  {
  }
}
