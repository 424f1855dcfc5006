/**
 * Client-id resolution: `App.__init__` keeps an explicit `client_id`, and
 * otherwise `App._create_client_code_by_hostname` derives one from the
 * service name, a host part (the `HOSTNAME` environment variable, or a
 * marker and a random number) and a final random number.
 */
module ClientIdentity {
  import opened Common
  import opened Decimal

  /** A value `random.randint(1, 1000000)` can return. */
  type RandomToken = r: int | 1 <= r <= 1000000 witness 1

  /**
   * What the id derivation reads from outside: the `HOSTNAME` variable, if
   * set, and the results of the `random.randint(1, 1000000)` calls. The
   * conditional expression makes the call for the host part (`hostDraw`)
   * only when `HOSTNAME` is unset; otherwise `hostDraw` is unused and the
   * call for the final part (`finalDraw`) is the only one.
   */
  datatype HostEnv = HostEnv(hostname: Option<string>, hostDraw: RandomToken, finalDraw: RandomToken)

  const Separator := "__"
  const NonDockerPrefix := "non_docker_env_"

  /** `sep.join(parts)`. */
  function Join(parts: seq<string>, sep: string): string {
    if parts == [] then "" else if |parts| == 1 then parts[0] else parts[0] + sep + Join(parts[1..], sep)
  }

  /**
   * Joining two non-empty lists of parts is joining each and putting one
   * separator between the results.
   */
  lemma {:induction false} JoinAppend(a: seq<string>, b: seq<string>, sep: string)
    requires |a| > 0 && |b| > 0
    ensures Join(a + b, sep) == Join(a, sep) + sep + Join(b, sep)
    decreases |a|
  {
    if |a| > 1 {
      assert (a + b)[1..] == a[1..] + b;
      JoinAppend(a[1..], b, sep);
    }
  }

  /** The middle part of a derived id: `HOSTNAME`, or a marker and a random number. */
  function HostToken(env: HostEnv): (h: string)
    ensures env.hostname.Some? ==> h == env.hostname.value
    ensures env.hostname.None? ==>
              && |h| > |NonDockerPrefix|
              && h[..|NonDockerPrefix|] == NonDockerPrefix
              && h[|NonDockerPrefix|] != '0'
              && AllDigits(h[|NonDockerPrefix|..])
              && ParseNat(h[|NonDockerPrefix|..]) == env.hostDraw
  {
    match env.hostname
    case Some(name) => name
    case None =>
      var digits := NatToString(env.hostDraw);
      ParseNatToString(env.hostDraw);
      assert (NonDockerPrefix + digits)[|NonDockerPrefix|..] == digits;
      NonDockerPrefix + digits
  }

  /**
   * `_create_client_code_by_hostname(name)`: the service name, the host token
   * and the final random number, joined by two underscores.
   */
  function CreateClientCodeByHostname(name: string, env: HostEnv): (id: string)
    ensures id == name + Separator + HostToken(env) + Separator + NatToString(env.finalDraw)
  {
    var h, d := HostToken(env), NatToString(env.finalDraw);
    JoinAppend([h], [d], Separator);
    JoinAppend([name], [h, d], Separator);
    assert [name] + [h, d] == [name, h, d] && [h] + [d] == [h, d];
    Join([name, h, d], Separator)
  }

  /** The derived id starts with the service name followed by the separator. */
  lemma DerivedIdStartsWithName(name: string, env: HostEnv)
    ensures CreateClientCodeByHostname(name, env)[..|name| + 2] == name + Separator
  {
    var id := CreateClientCodeByHostname(name, env);
    assert id == (name + Separator) + (HostToken(env) + Separator + NatToString(env.finalDraw));
  }

  /**
   * The final random number can be read back from a derived id: it is the
   * run of digits after the last separator, whatever the name and host are.
   */
  lemma DerivedIdEndsWithDraw(name: string, env: HostEnv)
    ensures ParseNat(TrailingDigits(CreateClientCodeByHostname(name, env))) == env.finalDraw
  {
    var prefix := name + Separator + HostToken(env) + Separator;
    var digits := NatToString(env.finalDraw);
    assert prefix[|prefix| - 1] == '_';
    TrailingDigitsAfter(prefix, digits);
    ParseNatToString(env.finalDraw);
  }

  /**
   * The id the bus client is configured with (the branch at the start of
   * `App.__init__`): an explicit id unchanged, otherwise a derived one.
   */
  function ResolveClientId(serviceName: string, clientId: Option<string>, env: HostEnv): (id: string)
    ensures clientId.Some? ==> id == clientId.value
    ensures clientId.None? ==> id == CreateClientCodeByHostname(serviceName, env)
    ensures clientId.None? ==> |id| > |serviceName| + 4
  {
    if clientId.None? then CreateClientCodeByHostname(serviceName, env) else clientId.value
  }
}
