/**
 * Start-up configuration of the exporter: the broker connection parameters,
 * taken from a connection URI field by field or from discrete environment
 * variables, and the robot's name.
 *
 * The environment is a map from variable name to value; an absent key is an
 * unset variable. The URI parser is a parameter: the model sees only the
 * record of optional components it returns.
 */
module Config {
  import opened Wrappers

  type Env = map<string, string>

  const UriVar := "RABBITMQ_URI"
  const UserVar := "RABBITMQ_USER"
  const PassVar := "RABBITMQ_PASS"
  const HostVar := "RABBITMQ_HOST"
  const PortVar := "RABBITMQ_PORT"
  const VhostVar := "RABBITMQ_VHOST"
  const RobotVar := "ROBOT_NAME"
  const DefaultVhost := "/"

  datatype ConfigError =
    | MissingVar(name: string)                 // a required variable is unset or empty
    | NotAnInteger(name: string, text: string) // the port variable does not read as an integer

  /** The components of a parsed URI that the exporter uses (userinfo, host, port, path). */
  datatype ParsedUri = ParsedUri(
    username: Option<string>,
    password: Option<string>,
    hostname: Option<string>,
    port: Option<int>,
    path: string)

  datatype RmqParams = RmqParams(host: string, port: int, user: string, password: string, vhost: string)

  /** A variable is set when it is present with a non-empty value (the test `if not val`). */
  predicate IsSet(env: Env, name: string) {
    name in env && env[name] != ""
  }

  /** Truthiness of an optional string component: present and non-empty. */
  predicate Truthy(s: Option<string>) {
    s.Some? && s.value != ""
  }

  /** Truthiness of an optional port: present and non-zero. */
  predicate TruthyPort(n: Option<int>) {
    n.Some? && n.value != 0
  }

  /** The value of a variable that must be set; an unset or empty variable is an error. */
  function Required(env: Env, name: string): (r: Result<string, ConfigError>)
    ensures r.Success? <==> IsSet(env, name)
    ensures r.Success? ==> r.value == env[name] && r.value != ""
    ensures r.Failure? ==> r.error == MissingVar(name)
  {
    if name in env && env[name] != "" then Success(env[name]) else Failure(MissingVar(name))
  }

  // ---------------------------------------------------------------------------
  // Integer conversion of a variable's text: an optional sign and decimal digits.

  predicate IsDigit(c: char) {
    '0' <= c <= '9'
  }

  predicate AllDigits(s: string) {
    forall i :: 0 <= i < |s| ==> IsDigit(s[i])
  }

  function DigitsValue(s: string): nat
    requires AllDigits(s)
    decreases |s|
  {
    if s == [] then 0 else 10 * DigitsValue(s[..|s| - 1]) + (s[|s| - 1] as int - '0' as int)
  }

  predicate IsSign(c: char) {
    c == '+' || c == '-'
  }

  /** Reads an integer written as an optional sign followed by at least one decimal digit. */
  function ParseInt(s: string): (r: Option<int>)
    ensures r.Some? <==> (s != [] && AllDigits(s)) || (|s| >= 2 && IsSign(s[0]) && AllDigits(s[1..]))
    ensures r.Some? && s[0] == '-' ==> r.value <= 0
    ensures r.Some? && s[0] != '-' ==> r.value >= 0
  {
    if s != [] && IsSign(s[0]) then
      if |s| >= 2 && AllDigits(s[1..]) then
        var magnitude: int := DigitsValue(s[1..]);
        Some(if s[0] == '-' then -magnitude else magnitude)
      else
        None
    else if s != [] && AllDigits(s) then
      Some(DigitsValue(s))
    else
      None
  }

  /** The decimal text of a natural number, as the start-up script writes the port. */
  function Decimal(n: nat): (s: string)
    ensures s != [] && AllDigits(s)
    decreases n
  {
    if n < 10 then [('0' as int + n) as char] else Decimal(n / 10) + [('0' as int + n % 10) as char]
  }

  lemma {:induction false} DigitsOfDecimal(n: nat)
    ensures DigitsValue(Decimal(n)) == n
    decreases n
  {
    var s := Decimal(n);
    if n >= 10 {
      DigitsOfDecimal(n / 10);
      assert s[..|s| - 1] == Decimal(n / 10);
    }
  }

  /** An unsigned digit string reads as its digits' value. */
  lemma ParseBare(s: string, m: nat)
    requires s != [] && AllDigits(s) && DigitsValue(s) == m
    ensures ParseInt(s) == Some(m)
  {
    assert !IsSign(s[0]);
  }

  /** A sign followed by a digit string reads as the digits' value, negated for a minus. */
  lemma ParseSigned(s: string, m: nat)
    requires |s| >= 2 && IsSign(s[0]) && AllDigits(s[1..]) && DigitsValue(s[1..]) == m
    ensures ParseInt(s) == Some(if s[0] == '-' then -(m as int) else m)
  {
  }

  /** Every integer written in decimal, with or without a minus sign, is read back as itself. */
  lemma ParseDecimal(n: nat)
    ensures ParseInt(Decimal(n)) == Some(n)
    ensures ParseInt("-" + Decimal(n)) == Some(-(n as int))
  {
    ParsePadded(n, 0);
    assert Zeros(0) + Decimal(n) == Decimal(n);
  }

  /** `n` zero digits, the padding `int()` ignores. */
  function Zeros(n: nat): (s: string)
    ensures |s| == n && AllDigits(s)
    decreases n
  {
    if n == 0 then [] else Zeros(n - 1) + "0"
  }

  lemma {:induction false} ZerosValue(k: nat)
    ensures DigitsValue(Zeros(k)) == 0
    decreases k
  {
    if k > 0 {
      assert Zeros(k)[..k - 1] == Zeros(k - 1);
      ZerosValue(k - 1);
    }
  }

  /** Leading zeros in front of a digit string do not change its value. */
  lemma {:induction false} ZerosPrefixValue(k: nat, s: string)
    requires AllDigits(s)
    ensures AllDigits(Zeros(k) + s)
    ensures DigitsValue(Zeros(k) + s) == DigitsValue(s)
    decreases |s|
  {
    var z := Zeros(k);
    assert forall i :: 0 <= i < |z + s| ==> (z + s)[i] == if i < |z| then z[i] else s[i - |z|];
    if s == [] {
      assert z + s == z;
      ZerosValue(k);
    } else {
      var front := s[..|s| - 1];
      assert (z + s)[..|z + s| - 1] == z + front;
      assert forall i :: 0 <= i < |front| ==> front[i] == s[i];
      ZerosPrefixValue(k, front);
    }
  }

  /**
   * Leading zeros and a leading plus sign do not change the value read, and
   * a leading minus sign negates it.
   */
  lemma ParsePadded(n: nat, k: nat)
    ensures ParseInt(Zeros(k) + Decimal(n)) == Some(n)
    ensures ParseInt("+" + Zeros(k) + Decimal(n)) == Some(n)
    ensures ParseInt("-" + Zeros(k) + Decimal(n)) == Some(-(n as int))
  {
    var digits := Zeros(k) + Decimal(n);
    ZerosPrefixValue(k, Decimal(n));
    DigitsOfDecimal(n);
    ParseBare(digits, n);
    var plus, minus := "+" + Zeros(k) + Decimal(n), "-" + Zeros(k) + Decimal(n);
    assert plus[1..] == digits && minus[1..] == digits;
    ParseSigned(plus, n);
    ParseSigned(minus, n);
  }

  /** `int(required(name))`: an unset variable fails before a malformed one. */
  function RequiredInt(env: Env, name: string): (r: Result<int, ConfigError>)
    ensures r.Success? <==> IsSet(env, name) && ParseInt(env[name]).Some?
    ensures r.Success? ==> r.value == ParseInt(env[name]).value
    ensures !IsSet(env, name) ==> r == Failure(MissingVar(name))
    ensures IsSet(env, name) && ParseInt(env[name]).None? ==> r == Failure(NotAnInteger(name, env[name]))
  {
    var text :- Required(env, name);
    match ParseInt(text)
    case Some(n) => Success(n)
    case None => Failure(NotAnInteger(name, text))
  }

  /** `component or required(name)`: the URI component wins when truthy. */
  function UriOrRequired(component: Option<string>, env: Env, name: string): (r: Result<string, ConfigError>)
    ensures r.Success? <==> Truthy(component) || IsSet(env, name)
    ensures r.Success? ==> r.value == (if Truthy(component) then component.value else env[name])
    ensures r.Failure? ==> r.error == MissingVar(name)
  {
    if Truthy(component) then Success(component.value) else Required(env, name)
  }

  /** `port or int(required(name))`: a URI port of 0 counts as absent. */
  function UriPortOrRequired(port: Option<int>, env: Env, name: string): (r: Result<int, ConfigError>)
    ensures r.Success? <==> TruthyPort(port) || (IsSet(env, name) && ParseInt(env[name]).Some?)
    ensures r.Success? ==> r.value == (if TruthyPort(port) then port.value else ParseInt(env[name]).value)
    ensures !TruthyPort(port) && !IsSet(env, name) ==> r == Failure(MissingVar(name))
    ensures !TruthyPort(port) && IsSet(env, name) && ParseInt(env[name]).None? ==>
      r == Failure(NotAnInteger(name, env[name]))
  {
    if TruthyPort(port) then Success(port.value) else RequiredInt(env, name)
  }

  /** The virtual host named by a URI path: the path without its first character, or "/". */
  function VhostFromPath(path: string): (vhost: string)
    ensures path == [] || path == "/" ==> vhost == DefaultVhost
    ensures path != [] && path != "/" ==> path == [path[0]] + vhost
  {
    if path != [] && path != "/" then path[1..] else DefaultVhost
  }

  /** A URI is in use when RABBITMQ_URI is set to a non-empty string. */
  predicate UriGiven(env: Env) {
    IsSet(env, UriVar)
  }

  /** The broker connection parameters, or the first configuration error met. */
  function BuildParams(env: Env, urlparse: string -> ParsedUri): (r: Result<RmqParams, ConfigError>)
    // With a URI: user, password, host and port each come from the URI when truthy and
    // otherwise from the corresponding required variable; the vhost comes from the path.
    ensures UriGiven(env) ==>
      var p := urlparse(env[UriVar]);
      && (r.Success? <==>
            && (Truthy(p.username) || IsSet(env, UserVar))
            && (Truthy(p.password) || IsSet(env, PassVar))
            && (Truthy(p.hostname) || IsSet(env, HostVar))
            && (TruthyPort(p.port) || (IsSet(env, PortVar) && ParseInt(env[PortVar]).Some?)))
      && (r.Success? ==>
            && r.value.user == (if Truthy(p.username) then p.username.value else env[UserVar])
            && r.value.password == (if Truthy(p.password) then p.password.value else env[PassVar])
            && r.value.host == (if Truthy(p.hostname) then p.hostname.value else env[HostVar])
            && r.value.port == (if TruthyPort(p.port) then p.port.value else ParseInt(env[PortVar]).value)
            && r.value.vhost == VhostFromPath(p.path))
    // Without a URI: host, port, user and password are all required; the vhost
    // is RABBITMQ_VHOST when present and "/" otherwise.
    ensures !UriGiven(env) ==>
      && (r.Success? <==>
            IsSet(env, HostVar) && IsSet(env, PortVar) && ParseInt(env[PortVar]).Some? &&
            IsSet(env, UserVar) && IsSet(env, PassVar))
      && (r.Success? ==>
            r.value == RmqParams(env[HostVar], ParseInt(env[PortVar]).value, env[UserVar], env[PassVar],
                                 if VhostVar in env then env[VhostVar] else DefaultVhost))
  {
    if UriGiven(env) then
      var p := urlparse(env[UriVar]);
      var user :- UriOrRequired(p.username, env, UserVar);
      var password :- UriOrRequired(p.password, env, PassVar);
      var host :- UriOrRequired(p.hostname, env, HostVar);
      var port :- UriPortOrRequired(p.port, env, PortVar);
      Success(RmqParams(host, port, user, password, VhostFromPath(p.path)))
    else
      var host :- Required(env, HostVar);
      var port :- RequiredInt(env, PortVar);
      var user :- Required(env, UserVar);
      var password :- Required(env, PassVar);
      var vhost := if VhostVar in env then env[VhostVar] else DefaultVhost;
      Success(RmqParams(host, port, user, password, vhost))
  }

  /** Without a URI the error names the first missing variable in the order host, port, user, password. */
  lemma DiscreteErrorOrder(env: Env, urlparse: string -> ParsedUri)
    requires !UriGiven(env)
    ensures !IsSet(env, HostVar) ==> BuildParams(env, urlparse) == Failure(MissingVar(HostVar))
    ensures IsSet(env, HostVar) && !IsSet(env, PortVar) ==>
      BuildParams(env, urlparse) == Failure(MissingVar(PortVar))
    ensures IsSet(env, HostVar) && IsSet(env, PortVar) && ParseInt(env[PortVar]).None? ==>
      BuildParams(env, urlparse) == Failure(NotAnInteger(PortVar, env[PortVar]))
    ensures IsSet(env, HostVar) && IsSet(env, PortVar) && ParseInt(env[PortVar]).Some? && !IsSet(env, UserVar) ==>
      BuildParams(env, urlparse) == Failure(MissingVar(UserVar))
    ensures (IsSet(env, HostVar) && IsSet(env, PortVar) && ParseInt(env[PortVar]).Some? && IsSet(env, UserVar) &&
             !IsSet(env, PassVar)) ==> BuildParams(env, urlparse) == Failure(MissingVar(PassVar))
  {
  }

  /**
   * With a URI the error names the first field that neither the URI nor its
   * variable supplies, in the order user, password, host, port.
   */
  lemma UriErrorOrder(env: Env, urlparse: string -> ParsedUri)
    requires UriGiven(env)
    ensures var p := urlparse(env[UriVar]);
      && (!Truthy(p.username) && !IsSet(env, UserVar) ==> BuildParams(env, urlparse) == Failure(MissingVar(UserVar)))
      && ((Truthy(p.username) || IsSet(env, UserVar)) && !Truthy(p.password) && !IsSet(env, PassVar) ==>
            BuildParams(env, urlparse) == Failure(MissingVar(PassVar)))
      && ((Truthy(p.username) || IsSet(env, UserVar)) && (Truthy(p.password) || IsSet(env, PassVar)) &&
          !Truthy(p.hostname) && !IsSet(env, HostVar) ==>
            BuildParams(env, urlparse) == Failure(MissingVar(HostVar)))
      && ((Truthy(p.username) || IsSet(env, UserVar)) && (Truthy(p.password) || IsSet(env, PassVar)) &&
          (Truthy(p.hostname) || IsSet(env, HostVar)) && !TruthyPort(p.port) ==>
            && (!IsSet(env, PortVar) ==> BuildParams(env, urlparse) == Failure(MissingVar(PortVar)))
            && (IsSet(env, PortVar) && ParseInt(env[PortVar]).None? ==>
                  BuildParams(env, urlparse) == Failure(NotAnInteger(PortVar, env[PortVar]))))
  {
  }

  // ---------------------------------------------------------------------------
  // Robot name

  predicate IsUpper(c: char) {
    'A' <= c <= 'Z'
  }

  /** ASCII lower-casing of one character. */
  function LowerChar(c: char): (d: char)
    ensures !IsUpper(d)
    ensures !IsUpper(c) ==> d == c
    ensures IsUpper(c) ==> d as int - c as int == 'a' as int - 'A' as int
  {
    if IsUpper(c) then (c as int + ('a' as int - 'A' as int)) as char else c
  }

  predicate NoUpper(s: string) {
    forall i :: 0 <= i < |s| ==> !IsUpper(s[i])
  }

  function Lower(s: string): (r: string)
    ensures |r| == |s| && NoUpper(r)
    ensures forall i :: 0 <= i < |s| && !IsUpper(s[i]) ==> r[i] == s[i]
    ensures forall i :: 0 <= i < |s| && IsUpper(s[i]) ==> r[i] as int == s[i] as int + ('a' as int - 'A' as int)
    ensures NoUpper(s) ==> r == s
  {
    seq(|s|, i requires 0 <= i < |s| => LowerChar(s[i]))
  }

  lemma LowerIdempotent(s: string)
    ensures Lower(Lower(s)) == Lower(s)
  {
  }

  /** ROBOT_NAME when set and non-empty, otherwise the host name; lower-cased either way. */
  function RobotName(env: Env, hostname: string): (name: string)
    ensures NoUpper(name)
    ensures IsSet(env, RobotVar) ==> name == Lower(env[RobotVar])
    ensures !IsSet(env, RobotVar) ==> name == Lower(hostname)
  {
    Lower(if IsSet(env, RobotVar) then env[RobotVar] else hostname)
  }
}
