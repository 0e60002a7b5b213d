/** processing_cmd and check_service_ctx of src/onvif_srvd.cpp. */
module CommandLine {
  import opened Wrappers
  import opened Text
  import opened Profiles
  import opened Options
  import opened OptionTheorems
  import opened OptionMeaning
  import opened Context
  import opened Eth
  import opened Daemon
  import opened Posix
  import opened Singleton
  import opened SingletonInvariant
  import opened Descriptors

  /** Done, or the exit status and the index of the option that ended the program. */
  datatype Outcome = Done | Exited(at: nat, failure: bool)

  ghost function DaemonNow(info: DaemonInfo): DaemonSettings
    reads info
  {
    DaemonSettings(info.noChdir, info.noFork, info.noCloseStdio, info.pidFile, info.logFile)
  }

  ghost function DeviceNow(ctx: ServiceContext): DeviceSettings
    reads ctx`port, ctx`user, ctx`password, ctx`manufacturer, ctx`model,
          ctx`firmwareVersion, ctx`serialNumber, ctx`hardwareId, ctx`scopes
  {
    DeviceSettings(ctx.port, ctx.user, ctx.password, ctx.manufacturer, ctx.model,
                   ctx.firmwareVersion, ctx.serialNumber, ctx.hardwareId, ctx.scopes)
  }

  /** The groups of options, as the switch of processing_cmd comments them. */
  datatype Group = Ending | ForDaemon | ForDevice | ForInterfaces | ForTimeZone | ForProfile | Committing | ForPtz

  function GroupOf(t: Tag): Group {
    if t.NoChdir? || t.NoFork? || t.NoClose? || t.PidFile? || t.LogFile? then ForDaemon
    else if t.Port? || t.User? || t.Password? || t.Manufacturer? || t.Model? || t.FirmwareVer?
            || t.SerialNum? || t.HardwareId? || t.Scope? then ForDevice
    else if t.Ifs? then ForInterfaces
    else if t.TzFormat? then ForTimeZone
    else if t.Name? || t.Width? || t.Height? || t.Url? || t.Snapurl? then ForProfile
    else if t.Type? then Committing
    else if t.Ptz? || t.MoveLeft? || t.MoveRight? || t.MoveUp? || t.MoveDown? || t.MoveStop?
            || t.MovePreset? then ForPtz
    else Ending  // Help, Version, Unknown
  }

  lemma SingleTags(t: Tag)
    ensures GroupOf(t) == ForInterfaces <==> t == Ifs
    ensures GroupOf(t) == ForTimeZone <==> t == TzFormat
    ensures GroupOf(t) == Committing <==> t == Type
  {
  }

  lemma TagsOfGroup(t: Tag)
    ensures GroupOf(t) == ForDevice ==>
      (t.Port? || t.User? || t.Password? || t.Manufacturer? || t.Model? || t.FirmwareVer? || t.SerialNum?
       || t.HardwareId? || t.Scope?)
    ensures GroupOf(t) == ForPtz ==>
      (t.Ptz? || t.MoveLeft? || t.MoveRight? || t.MoveUp? || t.MoveDown? || t.MoveStop? || t.MovePreset?)
    ensures GroupOf(t) == ForProfile ==> t.Name? || t.Width? || t.Height? || t.Url? || t.Snapurl?
  {
  }

  /** Options of other groups leave the settings of a group alone. */
  lemma Elsewhere(front: seq<Opt>, o: Opt, built: DaemonSettings, junk: int)
    ensures GroupOf(o.tag) != ForDaemon ==> DaemonOf(front + [o], built) == DaemonOf(front, built)
    ensures GroupOf(o.tag) != ForDevice ==> DeviceOf(front + [o]) == DeviceOf(front)
    ensures GroupOf(o.tag) != ForPtz ==> PtzOf(front + [o]) == PtzOf(front)
    ensures o.tag != TzFormat ==> TzOf(front + [o], junk) == TzOf(front, junk)
    ensures Args(front + [o], Ifs) == if o.tag == Ifs then Args(front, Ifs) + [o.arg] else Args(front, Ifs)
  {
    Snoc(front, o, TzFormat);
    Snoc(front, o, Ifs);
    hide LastArg, Args;
    if GroupOf(o.tag) != ForDaemon { DaemonElsewhere(front, o, built); }
    if GroupOf(o.tag) != ForDevice { DeviceElsewhere(front, o); }
    if GroupOf(o.tag) != ForPtz { PtzElsewhere(front, o); }
  }

  lemma LastOrSnoc(front: seq<Opt>, o: Opt, t: Tag, default: string)
    ensures LastOr(front + [o], t, default) == if o.tag == t then o.arg else LastOr(front, t, default)
  {
    Snoc(front, o, t);
  }

  lemma Skip(front: seq<Opt>, o: Opt, t: Tag, default: string)
    requires o.tag != t
    ensures LastArg(front + [o], t) == LastArg(front, t)
    ensures LastOr(front + [o], t, default) == LastOr(front, t, default)
  {
    Snoc(front, o, t);
  }

  lemma DaemonElsewhere(front: seq<Opt>, o: Opt, built: DaemonSettings)
    requires GroupOf(o.tag) != ForDaemon
    ensures DaemonOf(front + [o], built) == DaemonOf(front, built)
  {
    DaemonSnoc(front, o, built);
  }

  lemma DaemonSnoc(front: seq<Opt>, o: Opt, built: DaemonSettings)
    ensures var d := DaemonOf(front, built);
            DaemonOf(front + [o], built) ==
            if o.tag == NoChdir then d.(noChdir := true)
            else if o.tag == NoFork then d.(noFork := true)
            else if o.tag == NoClose then d.(noClose := true)
            else if o.tag == PidFile then d.(pidFile := Some(o.arg))
            else if o.tag == LogFile then d.(logFile := Some(o.arg))
            else d
  {
    hide LastArg, Args;
    Snoc(front, o, NoChdir); Snoc(front, o, NoFork); Snoc(front, o, NoClose);
    Snoc(front, o, PidFile); Snoc(front, o, LogFile);
  }

  lemma DeviceElsewhere(front: seq<Opt>, o: Opt)
    requires GroupOf(o.tag) != ForDevice
    ensures DeviceOf(front + [o]) == DeviceOf(front)
  {
    DeviceSnoc(front, o);
  }

  lemma DeviceSnoc(front: seq<Opt>, o: Opt)
    ensures var d := DeviceOf(front);
            DeviceOf(front + [o]) ==
            if o.tag == Port then d.(port := Atoi(o.arg))
            else if o.tag == User then d.(user := o.arg)
            else if o.tag == Password then d.(password := o.arg)
            else if o.tag == Manufacturer then d.(manufacturer := o.arg)
            else if o.tag == Model then d.(model := o.arg)
            else if o.tag == FirmwareVer then d.(firmwareVersion := o.arg)
            else if o.tag == SerialNum then d.(serialNumber := o.arg)
            else if o.tag == HardwareId then d.(hardwareId := o.arg)
            else if o.tag == Scope then d.(scopes := d.scopes + [o.arg])
            else d
  {
    hide LastArg, LastOr, Args, Atoi;
    Snoc(front, o, Port); Snoc(front, o, Scope);
    LastOrSnoc(front, o, User, "admin"); LastOrSnoc(front, o, Password, "admin");
    LastOrSnoc(front, o, Manufacturer, "Manufacturer"); LastOrSnoc(front, o, Model, "Model");
    LastOrSnoc(front, o, FirmwareVer, "FirmwareVersion"); LastOrSnoc(front, o, SerialNum, "SerialNumber");
    LastOrSnoc(front, o, HardwareId, "HardwareId");
  }

  lemma PtzElsewhere(front: seq<Opt>, o: Opt)
    requires GroupOf(o.tag) != ForPtz
    ensures PtzOf(front + [o]) == PtzOf(front)
  {
    PtzSnoc(front, o);
  }

  lemma PtzSnoc(front: seq<Opt>, o: Opt)
    ensures var d := PtzOf(front);
            PtzOf(front + [o]) ==
            if o.tag == Ptz then d.(enable := true)
            else if o.tag == MoveLeft then d.(moveLeft := o.arg)
            else if o.tag == MoveRight then d.(moveRight := o.arg)
            else if o.tag == MoveUp then d.(moveUp := o.arg)
            else if o.tag == MoveDown then d.(moveDown := o.arg)
            else if o.tag == MoveStop then d.(moveStop := o.arg)
            else if o.tag == MovePreset then d.(movePreset := o.arg)
            else d
  {
    hide LastArg, LastOr, Args;
    Snoc(front, o, Ptz);
    LastOrSnoc(front, o, MoveLeft, ""); LastOrSnoc(front, o, MoveRight, ""); LastOrSnoc(front, o, MoveUp, "");
    LastOrSnoc(front, o, MoveDown, ""); LastOrSnoc(front, o, MoveStop, ""); LastOrSnoc(front, o, MovePreset, "");
  }

  method DaemonOption(info: DaemonInfo, o: Opt, ghost front: seq<Opt>, ghost built: DaemonSettings)
    requires GroupOf(o.tag) == ForDaemon && DaemonNow(info) == DaemonOf(front, built)
    modifies info
    ensures DaemonNow(info) == DaemonOf(front + [o], built) && info.daemonized == old(info.daemonized)
  {
    hide DaemonOf;
    DaemonSnoc(front, o, built);
    if o.tag == NoChdir {
      info.noChdir := true;
    } else if o.tag == NoFork {
      info.noFork := true;
    } else if o.tag == NoClose {
      info.noCloseStdio := true;
    } else if o.tag == PidFile {
      info.pidFile := Some(o.arg);
    } else {
      info.logFile := Some(o.arg);
    }
  }

  method DeviceOption(ctx: ServiceContext, o: Opt, ghost front: seq<Opt>)
    requires GroupOf(o.tag) == ForDevice && DeviceNow(ctx) == DeviceOf(front)
    modifies ctx
    ensures DeviceNow(ctx) == DeviceOf(front + [o])
    ensures ctx.profiles == old(ctx.profiles) && ctx.tzFormat == old(ctx.tzFormat)
  {
    hide DeviceOf, GroupOf, Atoi;
    TagsOfGroup(o.tag);
    DeviceSnoc(front, o);
    if o.tag == Port {
      ctx.port := Atoi(o.arg);
    } else if o.tag == User {
      ctx.user := o.arg;
    } else if o.tag == Password {
      ctx.password := o.arg;
    } else if o.tag == Manufacturer {
      ctx.manufacturer := o.arg;
    } else if o.tag == Model {
      ctx.model := o.arg;
    } else if o.tag == FirmwareVer {
      ctx.firmwareVersion := o.arg;
    } else if o.tag == SerialNum {
      ctx.serialNumber := o.arg;
    } else if o.tag == HardwareId {
      ctx.hardwareId := o.arg;
    } else {
      ctx.scopes := ctx.scopes + [o.arg];
    }
  }

  method PtzOption(node: PtzNode, o: Opt, ghost front: seq<Opt>)
    requires GroupOf(o.tag) == ForPtz && PtzNow(node) == PtzOf(front)
    modifies node
    ensures PtzNow(node) == PtzOf(front + [o])
  {
    hide PtzOf, GroupOf;
    TagsOfGroup(o.tag);
    PtzSnoc(front, o);
    if o.tag == Ptz {
      node.enable := true;
    } else if o.tag == MoveLeft {
      node.moveLeft := o.arg;
    } else if o.tag == MoveRight {
      node.moveRight := o.arg;
    } else if o.tag == MoveUp {
      node.moveUp := o.arg;
    } else if o.tag == MoveDown {
      node.moveDown := o.arg;
    } else if o.tag == MoveStop {
      node.moveStop := o.arg;
    } else {
      node.movePreset := o.arg;
    }
  }

  lemma SegmentSnoc(tail: seq<Opt>, o: Opt, junk: int)
    requires GroupOf(o.tag) == ForProfile || o.tag == Type
    ensures var p := SegmentProfile(tail, junk);
            SegmentProfile(tail + [o], junk) ==
            if o.tag == Name then p.(name := o.arg)
            else if o.tag == Width then p.(width := ExtractInt(o.arg, junk))
            else if o.tag == Height then p.(height := ExtractInt(o.arg, junk))
            else if o.tag == Url then p.(url := o.arg)
            else if o.tag == Snapurl then p.(snapurl := o.arg)
            else p.(kind := KindOf(o.arg))
  {
    hide LastArg, LastOr, ExtractInt, KindOf;
    Snoc(tail, o, Width); Snoc(tail, o, Height); Snoc(tail, o, Type);
    LastOrSnoc(tail, o, Name, ""); LastOrSnoc(tail, o, Url, ""); LastOrSnoc(tail, o, Snapurl, "");
  }

  lemma SegmentElsewhere(tail: seq<Opt>, o: Opt, junk: int)
    requires GroupOf(o.tag) != ForProfile && o.tag != Type
    ensures SegmentProfile(tail + [o], junk) == SegmentProfile(tail, junk)
  {
    hide LastArg, LastOr, ExtractInt, KindOf, SizeOf;
    Skip(tail, o, Name, ""); Skip(tail, o, Url, ""); Skip(tail, o, Snapurl, "");
    Skip(tail, o, Width, ""); Skip(tail, o, Height, ""); Skip(tail, o, Type, "");
  }

  /** A setter of the scratch profile; false when it rejects the value. */
  method ProfileOption(profile: StreamProfile, o: Opt, ghost tail: seq<Opt>, junk: int) returns (ok: bool)
    requires GroupOf(o.tag) == ForProfile && profile.Value() == SegmentProfile(tail, junk)
    modifies profile
    ensures ok <==> ArgOk(o, false, junk)
    ensures ok ==> profile.Value() == SegmentProfile(tail + [o], junk)
  {
    hide LastArg, ExtractInt, GroupOf, SegmentProfile;
    TagsOfGroup(o.tag);
    SegmentSnoc(tail, o, junk);
    if o.tag == Name {
      ok := profile.SetName(Some(o.arg));
    } else if o.tag == Width {
      ok := profile.SetWidth(o.arg, junk);
    } else if o.tag == Height {
      ok := profile.SetHeight(o.arg, junk);
    } else if o.tag == Url {
      ok := profile.SetUrl(Some(o.arg));
    } else {
      ok := profile.SetSnapurl(Some(o.arg));
    }
  }

  // ------------------------------------------------- the whole stream

  /** Everything the options set, interfaces aside, and the scratch profile. */
  datatype View = View(daemon: DaemonSettings, device: DeviceSettings, ptz: PtzSettings, tz: nat,
                       profiles: map<string, Profile>, scratch: Profile)

  /** What a stream of options means. */
  ghost function ViewOf(opts: seq<Opt>, built: DaemonSettings, junk: int): View {
    View(DaemonOf(opts, built), DeviceOf(opts), PtzOf(opts), TzOf(opts, junk),
         Stored(Split(opts).segs, junk), SegmentProfile(Split(opts).tail, junk))
  }

  ghost function Now(info: DaemonInfo, ctx: ServiceContext, profile: StreamProfile): View
    reads info, ctx, ctx.ptzNode, profile
  {
    View(DaemonNow(info), DeviceNow(ctx), PtzNow(ctx.ptzNode), ctx.tzFormat, ctx.profiles, profile.Value())
  }

  /** One more option changes one component of the meaning; a --type commits and clears. */
  lemma ViewSnoc(front: seq<Opt>, o: Opt, built: DaemonSettings, junk: int)
    ensures var v, w := ViewOf(front, built, junk), ViewOf(front + [o], built, junk);
            match GroupOf(o.tag)
            case ForDaemon => w == v.(daemon := DaemonOf(front + [o], built))
            case ForDevice => w == v.(device := DeviceOf(front + [o]))
            case ForPtz => w == v.(ptz := PtzOf(front + [o]))
            case ForTimeZone => w == v.(tz := ExtractUnsigned(o.arg, Wrap(junk)))
            case ForProfile => w == v.(scratch := SegmentProfile(Split(front).tail + [o], junk))
            case Committing =>
              var p := v.scratch.(kind := KindOf(o.arg));
              w == v.(profiles := v.profiles[p.name := p], scratch := CLEARED)
            case Ending => w == v
            case ForInterfaces => w == v
  {
    hide LastArg, Args, Split, Stored, DaemonOf, DeviceOf, PtzOf, GroupOf, SegmentProfile;
    SingleTags(o.tag);
    Elsewhere(front, o, built, junk);
    SplitSnoc(front, o);
    Snoc(front, o, TzFormat);
    if o.tag == Type {
      SegmentSnoc(Split(front).tail, o, junk);
      StoredSnoc(Split(front).segs, Split(front).tail + [o], junk);
      EmptySegment(junk);
      CommitOf(Split(front).tail, o, junk);
    } else if GroupOf(o.tag) != ForProfile {
      SegmentElsewhere(Split(front).tail, o, junk);
    }
  }

  lemma CommitOf(tail: seq<Opt>, o: Opt, junk: int)
    requires o.tag == Type
    ensures SegmentProfile(tail + [o], junk) == SegmentProfile(tail, junk).(kind := KindOf(o.arg))
  {
    SegmentSnoc(tail, o, junk);
  }

  lemma StoredSnoc(segs: seq<seq<Opt>>, seg: seq<Opt>, junk: int)
    ensures Stored(segs + [seg], junk) ==
            Stored(segs, junk)[SegmentProfile(seg, junk).name := SegmentProfile(seg, junk)]
  {
    hide SegmentProfile;
    assert (segs + [seg])[..|segs|] == segs;
  }

  lemma EmptySegment(junk: int)
    ensures SegmentProfile([], junk) == CLEARED
  {
  }

  /** The interfaces are the named ones in order; they exist, and each is on the control socket that
      was opened for it, on the number that was the lowest free one then. */
  ghost predicate InterfacesFor(names: seq<string>, ifs: EthVector, net: Net)
    reads ifs, ifs.elems, net, net.kernel
  {
    && ifs.Valid() && net.Valid()
    && InterfacesAt(names, Values(ifs.elems), net.birth.exec, net.devices)
    && OwnDescriptors(Values(ifs.elems), net.Fds())
    && net.Record() == Retabled(net.birth, WithSockets(net.birth.exec, |names|), |names|)
  }

  ghost predicate InterfacesAt(names: seq<string>, ifs: seq<EthValue>, exec: FdTable, devices: set<string>) {
    && |ifs| == |names|
    && (forall i | 0 <= i < |names| :: ifs[i].name == names[i] && ifs[i].sd == SocketFd(exec, i))
    && (forall n | n in names :: |n| < 16 && n in devices)
  }

  lemma InterfacesGrow(names: seq<string>, ifs: seq<EthValue>, exec: FdTable, devices: set<string>, arg: string)
    requires InterfacesAt(names, ifs, exec, devices) && |arg| < 16 && arg in devices
    ensures InterfacesAt(names + [arg], ifs + [EthValue(SocketFd(exec, |names|), true, arg)], exec, devices)
    ensures WithSockets(exec, |names| + 1) == OpenControlFds(WithSockets(exec, |names|), |names|)
  {
    hide SocketFd;
  }

  /** Push an interface and open it. */
  method InterfaceOption(ifs: EthVector, net: Net, arg: string, ghost names: seq<string>) returns (ok: bool)
    requires InterfacesFor(names, ifs, net)
    modifies ifs, net, net.kernel
    ensures net.Valid() && net.kernel.Extends(old(net.kernel.trace), old(net.kernel.start))
    ensures ok ==> InterfacesFor(names + [arg], ifs, net)
    ensures !ok ==> CannotOpen(arg, net.devices, net.self, net.kernel.trace, |old(net.kernel.trace)|)
    ensures fresh(set x | x in ifs.elems && x !in old(ifs.elems))
  {
    hide Net.Valid, OwnDescriptors, InterfacesAt, WithSockets, LowestFree, OpenControlFds, CannotOpen;
    ghost var before := Values(ifs.elems);
    var r := ifs.AddInterface(net, arg);
    ok := r == 0;
    if ok {
      InterfacesGrow(names, before, net.birth.exec, net.devices, arg);
    }
  }

  /** The commit at --type: set_type, add_profile and clear; false when one of the first two fails. */
  method TypeOption(ctx: ServiceContext, profile: StreamProfile, arg: string) returns (ok: bool)
    modifies ctx`profiles, ctx`strErr, profile
    ensures var p := old(profile.Value()).(kind := KindOf(arg));
            && (ok <==> KindOk(KindOf(arg)) && Complete(p) && p.name !in old(ctx.profiles))
            && (ok ==> ctx.profiles == old(ctx.profiles)[p.name := p] && profile.Value() == CLEARED)
  {
    ok := profile.SetType(arg);
    if !ok { return false; }
    ok := ctx.AddProfile(profile);
    if !ok { return false; }
    profile.Clear();
  }

  lemma TypeGood(front: seq<Opt>, o: Opt, d: bool, built: DaemonSettings, junk: int)
    requires o.tag == Type
    ensures var p := ViewOf(front, built, junk).scratch.(kind := KindOf(o.arg));
            GoodAt(front + [o], |front|, d, junk) <==>
            KindOk(KindOf(o.arg)) && Complete(p) && p.name !in ViewOf(front, built, junk).profiles
  {
    hide LastArg, Args, Split, Stored, DaemonOf, DeviceOf, PtzOf;
    LastGood(front, o, d, junk);
    SegmentSnoc(Split(front).tail, o, junk);
  }

  lemma OtherGood(front: seq<Opt>, o: Opt, d: bool, junk: int)
    requires o.tag != Type
    ensures GoodAt(front + [o], |front|, d, junk) <==> ArgOk(o, d, junk)
  {
    LastGood(front, o, d, junk);
  }

  /** Which single options end the program. */
  lemma ArgOkOf(o: Opt, d: bool, junk: int)
    ensures match GroupOf(o.tag)
            case Ending => ArgOk(o, d, junk) <==> d
            case ForTimeZone => ArgOk(o, d, junk) <==> ExtractUnsigned(o.arg, Wrap(junk)) < TZ_CNT_FORMATS
            case ForProfile => ArgOk(o, d, junk) <==> ArgOk(o, false, junk)
            case Committing => true
            case _ => ArgOk(o, d, junk)
  {
    hide ExtractUnsigned, ExtractInt, KindOf;
  }

  lemma FrontSettings(front: seq<Opt>, built: DaemonSettings, junk: int)
    ensures ViewOf(front, built, junk).daemon == DaemonOf(front, built)
    ensures ViewOf(front, built, junk).device == DeviceOf(front)
    ensures ViewOf(front, built, junk).ptz == PtzOf(front)
    ensures ViewOf(front, built, junk).scratch == SegmentProfile(Split(front).tail, junk)
  {
    hide DaemonOf, DeviceOf, PtzOf, Split, SegmentProfile;
  }

  /** The options that concern no interface. */
  method OtherOption(o: Opt, ghost front: seq<Opt>, info: DaemonInfo, ctx: ServiceContext,
                     profile: StreamProfile, ghost built: DaemonSettings, junk: int)
    returns (goesOn: bool)
    requires o.tag != Ifs && Now(info, ctx, profile) == ViewOf(front, built, junk)
    modifies info, ctx, ctx.ptzNode, profile
    ensures info.daemonized == old(info.daemonized)
    ensures goesOn ==> Now(info, ctx, profile) == ViewOf(front + [o], built, junk)
    ensures goesOn <==> GoodAt(front + [o], |front|, info.daemonized, junk)
  {
    hide ViewOf, GoodAt, Split, LastArg, Args, KindOf, SegmentProfile, ArgOk, GroupOf;
    hide DaemonNow, DeviceNow, PtzNow, DaemonOf, DeviceOf, PtzOf, ExtractInt, ExtractUnsigned, Complete, KindOk;
    ViewSnoc(front, o, built, junk);
    SingleTags(o.tag);
    ArgOkOf(o, info.daemonized, junk);
    FrontSettings(front, built, junk);
    if o.tag == Type {
      TypeGood(front, o, info.daemonized, built, junk);
      goesOn := TypeOption(ctx, profile, o.arg);
      return;
    }
    OtherGood(front, o, info.daemonized, junk);
    match GroupOf(o.tag)
    case Ending =>
      var exits := info.ExitIfNotDaemonized();
      goesOn := !exits;
    case ForDaemon =>
      DaemonOption(info, o, front, built);
      goesOn := true;
    case ForDevice =>
      DeviceOption(ctx, o, front);
      goesOn := true;
    case ForPtz =>
      PtzOption(ctx.ptzNode, o, front);
      goesOn := true;
    case ForTimeZone =>
      goesOn := ctx.SetTzFormat(o.arg, Wrap(junk));
    case ForProfile =>
      goesOn := ProfileOption(profile, o, Split(front).tail, junk);
  }

  lemma InterfaceView(front: seq<Opt>, o: Opt, d: bool, built: DaemonSettings, junk: int)
    requires o.tag == Ifs
    ensures ViewOf(front + [o], built, junk) == ViewOf(front, built, junk)
    ensures GoodAt(front + [o], |front|, d, junk)
  {
    hide ViewOf, GoodAt;
    SingleTags(o.tag);
    ViewSnoc(front, o, built, junk);
    OtherGood(front, o, d, junk);
  }

  lemma NetOf(names: seq<string>, ifs: EthVector, net: Net)
    requires InterfacesFor(names, ifs, net)
    ensures net.Valid() && net.kernel.Extends(net.kernel.trace, net.kernel.start)
  {
    hide OwnDescriptors, SocketsOk, InterfacesAt, Exec;
  }

  /** One turn of the loop. False: the program ends at this option. */
  method OneOption(o: Opt, ghost front: seq<Opt>, info: DaemonInfo, ctx: ServiceContext,
                   profile: StreamProfile, net: Net, ghost built: DaemonSettings, junk: int)
    returns (goesOn: bool)
    requires Now(info, ctx, profile) == ViewOf(front, built, junk)
    requires InterfacesFor(Args(front, Ifs), ctx.ethIfs, net)
    modifies info, ctx, ctx.ptzNode, ctx.ethIfs, profile, net, net.kernel
    ensures info.daemonized == old(info.daemonized)
    ensures net.Valid() && net.kernel.Extends(old(net.kernel.trace), old(net.kernel.start))
    ensures goesOn ==> Now(info, ctx, profile) == ViewOf(front + [o], built, junk)
    ensures goesOn ==> InterfacesFor(Args(front + [o], Ifs), ctx.ethIfs, net)
    ensures goesOn ==> GoodAt(front + [o], |front|, info.daemonized, junk)
    ensures !goesOn ==>
      if o.tag == Ifs then CannotOpen(o.arg, net.devices, net.self, net.kernel.trace, |old(net.kernel.trace)|)
      else !GoodAt(front + [o], |front|, info.daemonized, junk)
    ensures fresh(set x | x in ctx.ethIfs.elems && x !in old(ctx.ethIfs.elems))
  {
    hide *;
    Snoc(front, o, Ifs);
    NetOf(Args(front, Ifs), ctx.ethIfs, net);
    if o.tag == Ifs {
      InterfaceView(front, o, info.daemonized, built, junk);
      goesOn := InterfaceOption(ctx.ethIfs, net, o.arg, Args(front, Ifs));
    } else {
      goesOn := OtherOption(o, front, info, ctx, profile, built, junk);
    }
  }

  /** The text is the argument, or the default without one. */
  predicate Is(text: string, arg: Option<string>, default: string) {
    text == if arg.Some? then arg.value else default
  }

  ghost predicate DaemonAsGiven(opts: seq<Opt>, built: DaemonSettings, info: DaemonInfo)
    reads info`noChdir, info`noFork, info`noCloseStdio, info`pidFile, info`logFile
  {
    && (info.noChdir <==> built.noChdir || LastArg(opts, NoChdir).Some?)
    && (info.noFork <==> built.noFork || LastArg(opts, NoFork).Some?)
    && (info.noCloseStdio <==> built.noClose || LastArg(opts, NoClose).Some?)
    && info.pidFile == (if LastArg(opts, PidFile).Some? then LastArg(opts, PidFile) else built.pidFile)
    && info.logFile == (if LastArg(opts, LogFile).Some? then LastArg(opts, LogFile) else built.logFile)
  }

  ghost predicate DeviceAsGiven(opts: seq<Opt>, ctx: ServiceContext)
    reads ctx
  {
    && ctx.port == (if LastArg(opts, Port).Some? then Atoi(LastArg(opts, Port).value) else 1000)
    && Is(ctx.user, LastArg(opts, User), "admin") && Is(ctx.password, LastArg(opts, Password), "admin")
    && Is(ctx.manufacturer, LastArg(opts, Manufacturer), "Manufacturer")
    && Is(ctx.model, LastArg(opts, Model), "Model")
    && Is(ctx.firmwareVersion, LastArg(opts, FirmwareVer), "FirmwareVersion")
    && Is(ctx.serialNumber, LastArg(opts, SerialNum), "SerialNumber")
    && Is(ctx.hardwareId, LastArg(opts, HardwareId), "HardwareId")
    && ctx.scopes == Args(opts, Scope)
  }

  ghost predicate PtzAsGiven(opts: seq<Opt>, node: PtzNode)
    reads node
  {
    && (node.enable <==> LastArg(opts, Ptz).Some?)
    && Is(node.moveLeft, LastArg(opts, MoveLeft), "") && Is(node.moveRight, LastArg(opts, MoveRight), "")
    && Is(node.moveUp, LastArg(opts, MoveUp), "") && Is(node.moveDown, LastArg(opts, MoveDown), "")
    && Is(node.moveStop, LastArg(opts, MoveStop), "") && Is(node.movePreset, LastArg(opts, MovePreset), "")
  }

  /** Every setting is the last value given for it, or its default, and the profiles are those of the
      segments. */
  ghost predicate AsGiven(opts: seq<Opt>, built: DaemonSettings, junk: int, info: DaemonInfo, ctx: ServiceContext)
    reads info`noChdir, info`noFork, info`noCloseStdio, info`pidFile, info`logFile, ctx, ctx.ptzNode
  {
    && DaemonAsGiven(opts, built, info) && DeviceAsGiven(opts, ctx) && PtzAsGiven(opts, ctx.ptzNode)
    && ctx.tzFormat == (if LastArg(opts, TzFormat).Some?
                        then ExtractUnsigned(LastArg(opts, TzFormat).value, junk % 0x1_0000_0000) else 0)
    && StoredAsGiven(ctx.profiles, opts, junk)
  }

  lemma GivenSettings(opts: seq<Opt>, built: DaemonSettings, junk: int, info: DaemonInfo, ctx: ServiceContext, d: bool)
    requires Accepted(opts, d, junk)
    requires DaemonNow(info) == DaemonOf(opts, built) && DeviceNow(ctx) == DeviceOf(opts)
    requires PtzNow(ctx.ptzNode) == PtzOf(opts) && ctx.tzFormat == TzOf(opts, junk)
    requires ctx.profiles == Stored(Split(opts).segs, junk)
    ensures AsGiven(opts, built, junk, info, ctx)
  {
    hide Accepted, Stored, Split, LastArg, Args, StoredAsGiven, ExtractUnsigned, Atoi;
    StoredMeaning(opts, d, junk);
  }

  /** processing_cmd. Done: every option was accepted and the state is exactly what the stream
      means, each interface on a control socket of its own. Exited: it ends at the first option
      that is not accepted, or at an interface whose name is too long, whose device does not exist, or
      whose socket is refused. */
  method ProcessingCmd(opts: seq<Opt>, info: DaemonInfo, ctx: ServiceContext, net: Net,
                       ghost built: DaemonSettings, junk: int)
    returns (r: Outcome)
    requires DaemonNow(info) == DaemonOf([], built)
    requires DeviceNow(ctx) == DeviceOf([]) && PtzNow(ctx.ptzNode) == PtzOf([])
    requires ctx.tzFormat == 0 && ctx.profiles == map[]
    requires ctx.ethIfs.Valid() && ctx.ethIfs.elems == [] && net.Valid() && net.Record() == net.birth
    modifies info, ctx, ctx.ptzNode, ctx.ethIfs, net, net.kernel
    ensures net.Valid() && net.kernel.Extends(old(net.kernel.trace), old(net.kernel.start))
    ensures info.daemonized == old(info.daemonized)
    ensures r.Done? ==> Accepted(opts, info.daemonized, junk)
    ensures r.Done? ==> DaemonNow(info) == DaemonOf(opts, built) && DeviceNow(ctx) == DeviceOf(opts)
    ensures r.Done? ==> PtzNow(ctx.ptzNode) == PtzOf(opts) && ctx.tzFormat == TzOf(opts, junk)
    ensures r.Done? ==> ctx.profiles == Stored(Split(opts).segs, junk) && ctx.Valid()
    ensures r.Done? ==> AsGiven(opts, built, junk, info, ctx)
    ensures r.Done? ==> InterfacesFor(Args(opts, Ifs), ctx.ethIfs, net)
    ensures r.Exited? ==> r.at < |opts| && Accepted(opts[..r.at], info.daemonized, junk)
    ensures r.Exited? ==>
      if opts[r.at].tag == Ifs
      then CannotOpen(opts[r.at].arg, net.devices, net.self, net.kernel.trace, |old(net.kernel.trace)|)
      else !GoodAt(opts, r.at, info.daemonized, junk)
    ensures r.Exited? ==> (r.failure <==> opts[r.at].tag != Help && opts[r.at].tag != Version)
  {
    hide GoodAt, Accepted, Split, InterfacesFor, Args, Stored, ViewOf, Now, Net.Valid, Kernel.Valid, ProfilesOk;
    hide DaemonOf, DeviceOf, PtzOf, TzOf, DaemonNow, DeviceNow, PtzNow;
    hide EthVector.Valid, ServiceContext.Valid, Net.Record, CannotOpen, AsGiven;
    var profile := new StreamProfile();
    FirstView(info, ctx, profile, built, junk);
    NoInterfaces(ctx.ethIfs, net);
    NetOf(Args([], Ifs), ctx.ethIfs, net);
    for i := 0 to |opts|
      invariant info.daemonized == old(info.daemonized)
      invariant Now(info, ctx, profile) == ViewOf(opts[..i], built, junk)
      invariant InterfacesFor(Args(opts[..i], Ifs), ctx.ethIfs, net)
      invariant Accepted(opts[..i], info.daemonized, junk)
      invariant fresh(ctx.ethIfs.elems)
      invariant net.Valid() && net.kernel.Extends(old(net.kernel.trace), old(net.kernel.start))
    {
      assert opts[..i + 1] == opts[..i] + [opts[i]];
      OneMoreGood(opts, i, info.daemonized, junk);
      ghost var from := |net.kernel.trace|;
      var goesOn := OneOption(opts[i], opts[..i], info, ctx, profile, net, built, junk);
      if !goesOn {
        if opts[i].tag == Ifs {
          StillCannotOpen(opts[i].arg, net, net.kernel.trace, from, net.kernel.trace, |old(net.kernel.trace)|);
        }
        return Exited(i, opts[i].tag != Help && opts[i].tag != Version);
      }
    }
    r := Done;
    assert opts[..|opts|] == opts;
    LastView(opts, info, ctx, profile, built, junk);
    GivenSettings(opts, built, junk, info, ctx, info.daemonized);
  }

  lemma StillCannotOpen(name: string, net: Net, early: seq<Event>, a: nat, late: seq<Event>, b: nat)
    requires early <= late && b <= a
    requires CannotOpen(name, net.devices, net.self, early, a)
    ensures CannotOpen(name, net.devices, net.self, late, b)
  {
    hide Happened;
    Later(net.kernel.start, early, a, late, b);
  }

  lemma FirstView(info: DaemonInfo, ctx: ServiceContext, profile: StreamProfile, built: DaemonSettings, junk: int)
    requires DaemonNow(info) == DaemonOf([], built)
    requires DeviceNow(ctx) == DeviceOf([]) && PtzNow(ctx.ptzNode) == PtzOf([])
    requires ctx.tzFormat == 0 && ctx.profiles == map[] && profile.Value() == CLEARED
    ensures Now(info, ctx, profile) == ViewOf([], built, junk) && Accepted([], info.daemonized, junk)
  {
    hide DaemonNow, DeviceNow, PtzNow, DaemonOf, DeviceOf, PtzOf;
    EmptyView(built, junk);
  }

  /** The meaning of a stream without blank numeric arguments does not depend on uninitialised locals. */
  lemma ViewJunkFree(opts: seq<Opt>, built: DaemonSettings, d: bool, j: int, k: int)
    requires NumbersGiven(opts)
    ensures ViewOf(opts, built, j) == ViewOf(opts, built, k)
    ensures Accepted(opts, d, j) <==> Accepted(opts, d, k)
  {
    hide DaemonOf, DeviceOf, PtzOf, TzOf, Split, Stored, SegmentProfile, Accepted, NumbersGiven;
    JunkFree(opts, d, j, k);
  }

  /** What the view at the end says of the objects. */
  lemma LastView(opts: seq<Opt>, info: DaemonInfo, ctx: ServiceContext, profile: StreamProfile,
                 built: DaemonSettings, junk: int)
    requires Now(info, ctx, profile) == ViewOf(opts, built, junk) && Accepted(opts, info.daemonized, junk)
    ensures DaemonNow(info) == DaemonOf(opts, built) && DeviceNow(ctx) == DeviceOf(opts)
    ensures PtzNow(ctx.ptzNode) == PtzOf(opts) && ctx.tzFormat == TzOf(opts, junk)
    ensures ctx.profiles == Stored(Split(opts).segs, junk) && ctx.Valid()
  {
    hide DaemonNow, DeviceNow, PtzNow, DaemonOf, DeviceOf, PtzOf, TzOf;
    hide Split, Stored, SegmentProfile, ProfilesOk, Accepted;
    AcceptedIsUsable(opts, info.daemonized, junk);
  }

  lemma OneMoreGood(opts: seq<Opt>, i: nat, d: bool, junk: int)
    requires i < |opts| && Accepted(opts[..i], d, junk)
    ensures GoodAt(opts[..i] + [opts[i]], |opts[..i]|, d, junk) <==> GoodAt(opts, i, d, junk)
    ensures GoodAt(opts, i, d, junk) ==> Accepted(opts[..i] + [opts[i]], d, junk)
  {
    hide GoodAt;
    var front, next := opts[..i], opts[..i] + [opts[i]];
    assert opts == next + opts[i + 1..];
    GoodInFront(next, opts[i + 1..], i, d, junk);
    if GoodAt(opts, i, d, junk) {
      forall k | 0 <= k < |next| ensures GoodAt(next, k, d, junk) {
        if k < i { GoodInFront(front, [opts[i]], k, d, junk); }
      }
    }
  }

  lemma EmptyView(built: DaemonSettings, junk: int)
    ensures ViewOf([], built, junk) == View(DaemonOf([], built), DeviceOf([]), PtzOf([]), 0, map[], CLEARED)
  {
    EmptySegment(junk);
  }

  lemma NoInterfaces(ifs: EthVector, net: Net)
    requires ifs.Valid() && ifs.elems == [] && net.Valid() && net.Record() == net.birth
    ensures InterfacesFor(Args([], Ifs), ifs, net)
  {
  }

  // ------------------------------------------------- until service

  /** check_service_ctx; false: the program ends. */
  method CheckServiceCtx(ctx: ServiceContext) returns (ok: bool)
    ensures ok <==> ctx.ethIfs.elems != [] && ctx.scopes != [] && ctx.profiles != map[]
  {
    if ctx.ethIfs.elems == [] { return false; }
    if ctx.scopes == [] { return false; }
    if |ctx.profiles| == 0 { return false; }
    ok := true;
  }

  lemma StoredNotEmpty(segs: seq<seq<Opt>>, junk: int)
    ensures Stored(segs, junk) == map[] <==> segs == []
  {
    hide SegmentProfile;
    if segs != [] {
      assert SegmentProfile(segs[|segs| - 1], junk).name in Stored(segs, junk);
    }
  }

  /** The lock, the interfaces and the service socket of a serving process, from the descriptors it was
      executed with. */
  ghost predicate ServesAsExecuted(P: Proc, holds: bool, names: seq<string>, ifs: seq<EthValue>) {
    var closed := |FreeStd(P.exec)|;
    && |ifs| == |names| > 0
    && (forall i | 0 <= i < |names| ::
          && ifs[i].name == names[i] && ifs[i].sd in P.fds
          && (P.fds[ifs[i].sd] == Control(i) <==> P.cfg.noCloseStdio || i >= closed))
    && (P.cfg.pidFile.Some? ==>
          (holds <==>
           P.cfg.noCloseStdio
           || (closed <= |names| && forall j | 0 <= j < 3 && j in P.exec :: P.exec[j] != Regular(P.ino))))
    && P.srv in P.fds
    && (P.fds[P.srv] == Service <==>
        P.cfg.noCloseStdio || closed <= |names| + if P.cfg.pidFile.Some? then 1 else 0)
  }

  /** So every interface is on its own socket exactly when redirection is off or the descriptors 0 to
      2 were open at execution. */
  lemma AllOwnSockets(P: Proc, holds: bool, names: seq<string>, ifs: seq<EthValue>)
    requires ServesAsExecuted(P, holds, names, ifs)
    ensures (forall i | 0 <= i < |names| :: P.fds[ifs[i].sd] == Control(i)) <==>
            P.cfg.noCloseStdio || forall j | 0 <= j < 3 :: j in P.exec
  {
    AllOpenIff(P.exec);
    assert P.fds[ifs[0].sd] == Control(0) <==> P.cfg.noCloseStdio || 0 >= |FreeStd(P.exec)|;
  }

  lemma ServedFrom(before: Proc, P: Proc, holds: bool, names: seq<string>, ifs: seq<EthValue>, devices: set<string>)
    requires names != [] && InterfacesAt(names, ifs, before.exec, devices)
    requires before.boot == WithSockets(before.exec, |names|) == before.fds && SameStart(before, P)
    requires P.cfg.pidFile.Some? ==> (holds <==> StdSafeAtEntry(P.cfg, before.fds, P.ino))
    requires forall d | d in before.fds && before.fds[d].Control? ::
               d in P.fds && (P.fds[d] == before.fds[d] <==> P.cfg.noCloseStdio || d > 2)
    requires ServiceWhere(P)
    ensures ServesAsExecuted(P, holds, names, ifs)
  {
    hide WithSockets, SocketFd, FreeStd;
    forall i | 0 <= i < |names|
      ensures ifs[i].sd in P.fds
      ensures P.fds[ifs[i].sd] == Control(i) <==> P.cfg.noCloseStdio || i >= |FreeStd(P.exec)|
    {
      SocketAt(before.exec, |names|, i);
      LowSocketIff(before.exec, i);
    }
    SafeStdIff(P, |names|);
    LowServiceIff(P, |names|);
  }

  /** daemonize2 with init, after a command line with these interfaces. */
  method EnterService(info: DaemonInfo, ctx: ServiceContext, net: Net, ghost names: seq<string>)
    returns (served: Option<Pid>)
    requires InterfacesFor(names, ctx.ethIfs, net)
    modifies info`daemonized, net.kernel
    ensures net.kernel.Extends(old(net.kernel.trace), old(net.kernel.start))
    ensures served.Some? ==> names != [] && ctx.scopes != [] && ctx.profiles != map[]
    ensures served.Some? ==> info.daemonized && At(net.kernel.sys, served.value, Serving)
    ensures served.Some? ==> net.kernel.sys.procs[served.value].exec == net.birth.exec
    ensures served.Some? ==> net.kernel.sys.procs[served.value].cfg == old(info.Cfg())
    ensures served.Some? ==>
      ServesAsExecuted(net.kernel.sys.procs[served.value], Holds(net.kernel.sys, served.value),
                       names, Values(ctx.ethIfs.elems))
    ensures served == None ==>
      || names == [] || ctx.scopes == [] || ctx.profiles == map[]
      || StartFailed(net.kernel.start, net.kernel.trace, |old(net.kernel.trace)|, net.self,
                     old(info.Cfg()), old(info.noChdir))
  {
    hide InterfacesFor, ServesAsExecuted, Net.Valid, Kernel.Valid, StdSafeAtEntry, StartFailed;
    hide InterfacesAt, WithSockets, Holds, ServiceWhere;
    InterfacesKnown(names, ctx.ethIfs, net);
    ghost var ifs, before := Values(ctx.ethIfs.elems), net.Record();
    var contextOk := CheckServiceCtx(ctx);
    served := info.Daemonize2(net.kernel, net.self, contextOk);
    if served.Some? {
      ghost var k := net.kernel;
      ServedFrom(before, k.sys.procs[served.value], Holds(k.sys, served.value), names, ifs, net.devices);
    }
  }

  /** main up to the accept loop. It ends before service only when an option is not acceptable, an
      interface cannot be opened, there is no --ifs, --scope or profile, or a call of daemonize2 has
      failed. Whatever options a process that reaches service was given, all of
      them were accepted, there is an --ifs, a --scope and a complete profile among them, and every
      profile can be served. Its lock, its interfaces and its service socket are as the descriptors it was
      executed with decide: with redirection, as many interfaces as there were closed descriptors up to
      2 are on /dev/null, the lock is lost when there were more of these than interfaces, and the
      service socket when there were more than interfaces and PID file. */
  method Startup(opts: seq<Opt>, info: DaemonInfo, ctx: ServiceContext, net: Net,
                 ghost built: DaemonSettings, junk: int)
    returns (served: Option<Pid>)
    requires !info.daemonized
    requires DaemonNow(info) == DaemonOf([], built)
    requires DeviceNow(ctx) == DeviceOf([]) && PtzNow(ctx.ptzNode) == PtzOf([])
    requires ctx.tzFormat == 0 && ctx.profiles == map[]
    requires ctx.ethIfs.Valid() && ctx.ethIfs.elems == []
    requires net.Valid() && net.Record() == net.birth
    modifies info, ctx, ctx.ptzNode, ctx.ethIfs, net, net.kernel
    ensures net.kernel.Extends(old(net.kernel.trace), old(net.kernel.start))
    ensures served.Some? ==> Accepted(opts, false, junk)
    ensures served.Some? ==> Args(opts, Ifs) != [] && Args(opts, Scope) != [] && Split(opts).segs != []
    ensures served.Some? ==> ctx.profiles == Stored(Split(opts).segs, junk) && ctx.Valid()
    ensures served.Some? ==> AsGiven(opts, built, junk, info, ctx)
    ensures served.Some? ==> info.daemonized && At(net.kernel.sys, served.value, Serving)
    ensures served.Some? ==>
      net.kernel.sys.procs[served.value].cfg == Config(info.pidFile, info.noFork, info.noCloseStdio)
    ensures served.Some? ==> net.kernel.sys.procs[served.value].exec == net.birth.exec
    ensures served.Some? ==> net.kernel.sys.procs[served.value].cfg == CfgOf(opts, built)
    ensures served.Some? ==>
      ServesAsExecuted(net.kernel.sys.procs[served.value], Holds(net.kernel.sys, served.value),
                       Args(opts, Ifs), Values(ctx.ethIfs.elems))
    ensures served == None ==>
      || !Accepted(opts, false, junk)
      || (exists name :: name in Args(opts, Ifs)
            && CannotOpen(name, net.devices, net.self, net.kernel.trace, |old(net.kernel.trace)|))
      || Args(opts, Ifs) == [] || Args(opts, Scope) == [] || Split(opts).segs == []
      || StartFailed(net.kernel.start, net.kernel.trace, |old(net.kernel.trace)|, net.self,
                     CfgOf(opts, built), DaemonOf(opts, built).noChdir)
  {
    hide CannotOpen, StartFailed, AsGiven;
    hide GoodAt, Accepted, Split, Args, Stored, DaemonOf, DeviceNow, PtzOf, InterfacesFor, ServesAsExecuted;
    hide Net.Valid, Kernel.Valid, Holds, ServiceContext.Valid, EthVector.Valid, WithSockets;
    net.Alive();
    var parsed := ProcessingCmd(opts, info, ctx, net, built, junk);
    net.Alive();
    ghost var early, from := net.kernel.trace, |old(net.kernel.trace)|;
    if parsed.Exited? {
      net.kernel.Exit(net.self);
      if opts[parsed.at].tag == Ifs {
        ArgsHold(opts, parsed.at);
        StillCannotOpen(opts[parsed.at].arg, net, early, from, net.kernel.trace, from);
      } else {
        NotAccepted(opts, parsed.at, false, junk);
      }
      return None;
    }
    served := EnterService(info, ctx, net, Args(opts, Ifs));
    StoredNotEmpty(Split(opts).segs, junk);
    ScopesOf(ctx, opts);
    if served == None && Args(opts, Ifs) != [] && ctx.scopes != [] && ctx.profiles != map[] {
      SameReason(net.kernel.start, net.kernel.trace, |early|, from, net.self,
                 CfgOf(opts, built), DaemonOf(opts, built).noChdir);
    }
  }

  lemma NotAccepted(opts: seq<Opt>, i: nat, d: bool, junk: int)
    requires i < |opts| && !GoodAt(opts, i, d, junk)
    ensures !Accepted(opts, d, junk)
  {
    hide GoodAt;
  }

  /** The argument of every option is among the arguments of its tag. */
  lemma {:induction false} ArgsHold(opts: seq<Opt>, i: nat)
    requires i < |opts|
    ensures opts[i].arg in Args(opts, opts[i].tag)
  {
    if i < |opts| - 1 { ArgsHold(opts[..|opts| - 1], i); }
  }

  lemma ScopesOf(ctx: ServiceContext, opts: seq<Opt>)
    requires DeviceNow(ctx) == DeviceOf(opts)
    ensures ctx.scopes == Args(opts, Scope)
  {
    hide Args;
  }

  lemma InterfacesKnown(names: seq<string>, ifs: EthVector, net: Net)
    requires InterfacesFor(names, ifs, net)
    ensures |ifs.elems| == |names| && InterfacesAt(names, Values(ifs.elems), net.birth.exec, net.devices)
    ensures net.kernel.Valid() && At(net.kernel.sys, net.self, Launched)
    ensures net.Record() == Retabled(net.birth, WithSockets(net.birth.exec, |names|), |names|)
  {
    hide OwnDescriptors, SocketsOk;
  }

  /** The options that matter to the PID-file protocol. */
  function CfgOf(opts: seq<Opt>, built: DaemonSettings): Config {
    Config(DaemonOf(opts, built).pidFile, DaemonOf(opts, built).noFork, DaemonOf(opts, built).noClose)
  }
}
