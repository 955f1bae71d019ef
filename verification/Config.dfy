/** The persisted configuration and its validator (crates/mpv-targets/src/config.rs). */
module Config {
  import opened Wrappers
  import opened Protocol
  import opened Net
  import opened Text

  /** A listener text either parses as a socket address or it does not; the parser is a library. */
  datatype Listen = Listening(address: SocketAddr) | Unparsable(text: string)

  datatype NodeConfig = NodeConfig(id: string, listen: Listen)

  datatype TlsConfig = TlsConfig(certificate: string, privateKey: string)

  datatype TargetConfig = TargetConfig(name: string, disabled: bool, channel: Option<string>)

  datatype DaemonConfig = DaemonConfig(node: NodeConfig, tls: TlsConfig, targets: seq<TargetConfig>)

  datatype ConfigError =
    | EmptyNodeId
    | InvalidListenAddress
    | InvalidPath(path: string)
    | InvalidTargetName(name: string)
    | DuplicateTarget(name: string)
    | InvalidChannel(channel: string)

  /** A relative path that never steps upwards. */
  predicate ValidConfigPath(path: string) {
    path != [] && !IsAbsolute(path) && ".." !in Components(Split(path, '/'))
  }

  predicate ValidTarget(target: TargetConfig) {
    ValidTargetName(target.name) && (target.channel.Some? ==> ValidChannel(target.channel.value))
  }

  predicate Distinct(targets: seq<TargetConfig>) {
    forall i, j | 0 <= i < j < |targets| :: targets[i].name != targets[j].name
  }

  /** The parts of a configuration no operation ever edits. */
  predicate ValidFrame(config: DaemonConfig) {
    && config.node.id != []
    && config.node.listen.Listening?
    && ValidConfigPath(config.tls.certificate)
    && ValidConfigPath(config.tls.privateKey)
  }

  /** What `validate` is for: valid frame, valid targets, no two targets with one name. */
  predicate WellFormed(config: DaemonConfig) {
    && ValidFrame(config)
    && (forall t | t in config.targets :: ValidTarget(t))
    && Distinct(config.targets)
  }

  /** The targets before `i` are fine on their own and among themselves. */
  ghost predicate FineBefore(targets: seq<TargetConfig>, i: nat) {
    && i < |targets|
    && (forall j | 0 <= j < i :: ValidTarget(targets[j]))
    && forall j, k | 0 <= j < k < i :: targets[j].name != targets[k].name
  }

  ghost predicate NamedBefore(targets: seq<TargetConfig>, i: nat, name: string)
    requires i <= |targets|
  {
    exists j :: 0 <= j < i && targets[j].name == name
  }

  /**
   The error is about the first thing wrong with the configuration: the node, the
   certificate, the key, and then target by target its name, its name once more,
   and its channel.
   */
  ghost predicate Complains(config: DaemonConfig, error: ConfigError) {
    var node, tls, targets := config.node, config.tls, config.targets;
    match error
    case EmptyNodeId => node.id == ""
    case InvalidListenAddress => node.id != "" && node.listen.Unparsable?
    case InvalidPath(path) =>
      && node.id != "" && node.listen.Listening?
      && !ValidConfigPath(path)
      && path == if ValidConfigPath(tls.certificate) then tls.privateKey else tls.certificate
    case InvalidTargetName(name) =>
      && ValidFrame(config)
      && exists i: nat :: FineBefore(targets, i) && targets[i].name == name && !ValidTargetName(name)
    case DuplicateTarget(name) =>
      && ValidFrame(config)
      && exists i: nat ::
           FineBefore(targets, i) && targets[i].name == name && ValidTargetName(name) && NamedBefore(targets, i, name)
    case InvalidChannel(channel) =>
      && ValidFrame(config)
      && exists i: nat ::
           && FineBefore(targets, i) && ValidTargetName(targets[i].name)
           && !NamedBefore(targets, i, targets[i].name)
           && targets[i].channel == Some(channel) && !ValidChannel(channel)
  }

  /** A configuration that complains is not well formed. */
  lemma ComplaintsAreReal(config: DaemonConfig, error: ConfigError)
    requires Complains(config, error)
    ensures !WellFormed(config)
  {
    match error
    case InvalidTargetName(_) =>
      var i: nat :| FineBefore(config.targets, i) && config.targets[i].name == error.name
                    && !ValidTargetName(error.name);
      assert config.targets[i] in config.targets;
    case InvalidChannel(_) =>
      var i: nat :| FineBefore(config.targets, i) && config.targets[i].channel == Some(error.channel)
                    && !ValidChannel(error.channel);
      assert config.targets[i] in config.targets;
    case _ =>
  }

  /** Target `i` is the first one with something wrong. */
  ghost predicate FirstBad(targets: seq<TargetConfig>, i: nat) {
    FineBefore(targets, i) && (!ValidTarget(targets[i]) || NamedBefore(targets, i, targets[i].name))
  }

  lemma FirstBadIsOne(targets: seq<TargetConfig>, i: nat, j: nat)
    requires FirstBad(targets, i) && FirstBad(targets, j)
    ensures i == j
  {
    hide ValidTarget;
  }

  lemma ComplaintIsFirstBad(config: DaemonConfig, error: ConfigError) returns (i: nat)
    requires Complains(config, error)
    requires error.InvalidTargetName? || error.DuplicateTarget? || error.InvalidChannel?
    ensures ValidFrame(config) && FirstBad(config.targets, i)
    ensures var target := config.targets[i];
            error == if !ValidTargetName(target.name) then InvalidTargetName(target.name)
                     else if NamedBefore(config.targets, i, target.name) then DuplicateTarget(target.name)
                     else InvalidChannel(target.channel.value)
  {
    hide ValidTargetName, ValidChannel, ValidFrame;
    var targets := config.targets;
    match error
    case InvalidTargetName(name) =>
      i :| FineBefore(targets, i) && targets[i].name == name && !ValidTargetName(name);
    case DuplicateTarget(name) =>
      i :| FineBefore(targets, i) && targets[i].name == name && ValidTargetName(name) && NamedBefore(targets, i, name);
    case InvalidChannel(channel) =>
      i :| && FineBefore(targets, i) && ValidTargetName(targets[i].name)
           && !NamedBefore(targets, i, targets[i].name)
           && targets[i].channel == Some(channel) && !ValidChannel(channel);
    case _ => assert false;
  }

  /** There is only one error to report. */
  lemma OneComplaint(config: DaemonConfig, error: ConfigError, other: ConfigError)
    requires Complains(config, error) && Complains(config, other)
    ensures error == other
  {
    hide ValidConfigPath, FineBefore, NamedBefore, ValidTargetName, ValidChannel;
    if error.InvalidTargetName? || error.DuplicateTarget? || error.InvalidChannel? {
      var i := ComplaintIsFirstBad(config, error);
      if other.InvalidTargetName? || other.DuplicateTarget? || other.InvalidChannel? {
        var j := ComplaintIsFirstBad(config, other);
        FirstBadIsOne(config.targets, i, j);
      }
    } else if other.InvalidTargetName? || other.DuplicateTarget? || other.InvalidChannel? {
      var j := ComplaintIsFirstBad(config, other);
    }
  }

  /** `DaemonConfig::validate`: the loop over the targets with its set of names already seen. */
  method Validate(config: DaemonConfig) returns (r: Result<(), ConfigError>)
    ensures r.Success? <==> WellFormed(config)
    ensures r.Failure? ==> Complains(config, r.error)
    ensures r.Failure? && r.error.DuplicateTarget? ==>
              exists i, j | 0 <= i < j < |config.targets| ::
                config.targets[i].name == config.targets[j].name == r.error.name
  {
    hide ValidTargetName, ValidChannel, ValidConfigPath;
    if config.node.id == [] {
      return Failure(EmptyNodeId);
    }
    if !config.node.listen.Listening? {
      return Failure(InvalidListenAddress);
    }
    if !ValidConfigPath(config.tls.certificate) {
      return Failure(InvalidPath(config.tls.certificate));
    }
    if !ValidConfigPath(config.tls.privateKey) {
      return Failure(InvalidPath(config.tls.privateKey));
    }
    var names: set<string> := {};
    for index := 0 to |config.targets|
      invariant forall i | 0 <= i < index :: config.targets[i].name in names
      invariant forall n | n in names :: exists i | 0 <= i < index :: config.targets[i].name == n
      invariant forall i | 0 <= i < index :: ValidTarget(config.targets[i])
      invariant forall i, j | 0 <= i < j < index :: config.targets[i].name != config.targets[j].name
    {
      var target := config.targets[index];
      if !ValidTargetName(target.name) {
        assert target in config.targets && !ValidTarget(target);
        return Failure(InvalidTargetName(target.name));
      }
      if target.name in names {
        return Failure(DuplicateTarget(target.name));
      }
      names := names + {target.name};
      if target.channel.Some? && !ValidChannel(target.channel.value) {
        assert target in config.targets && !ValidTarget(target);
        return Failure(InvalidChannel(target.channel.value));
      }
    }
    return Success(());
  }
}
