/**
 The command line: what an option stream means, written down without any mutable scratch record.
 Cut the stream after each --type; in a segment the last value of each field wins; a segment is
 stored under its name; the first option that cannot be accepted ends the program; the options
 after the last --type store no profile.
 */
module Options {
  import opened Wrappers
  import opened Text
  import opened Profiles

  datatype Tag =
    | Help | Version
    | NoChdir | NoFork | NoClose | PidFile | LogFile
    | Port | User | Password | Manufacturer | Model | FirmwareVer | SerialNum | HardwareId
    | Scope | Ifs | TzFormat
    | Name | Width | Height | Url | Snapurl | Type
    | Ptz | MoveLeft | MoveRight | MoveUp | MoveDown | MoveStop | MovePreset
    | Unknown

  /** A parsed option; options without an argument carry "". */
  datatype Opt = Opt(tag: Tag, arg: string)

  const TZ_CNT_FORMATS := 6

  // ------------------------------------------------- last value wins

  function LastArg(opts: seq<Opt>, tag: Tag): Option<string> {
    if opts == [] then None
    else if opts[|opts| - 1].tag == tag then Some(opts[|opts| - 1].arg)
    else LastArg(opts[..|opts| - 1], tag)
  }

  function LastOr(opts: seq<Opt>, tag: Tag, default: string): string {
    match LastArg(opts, tag)
    case None => default
    case Some(arg) => arg
  }

  predicate Seen(opts: seq<Opt>, tag: Tag) {
    LastArg(opts, tag).Some?
  }

  /** All arguments of a tag, in order. */
  function Args(opts: seq<Opt>, tag: Tag): seq<string> {
    if opts == [] then []
    else
      var front := Args(opts[..|opts| - 1], tag);
      if opts[|opts| - 1].tag == tag then front + [opts[|opts| - 1].arg] else front
  }

  /** LastArg means what its name says. */
  lemma {:induction false} LastArgMeaning(opts: seq<Opt>, tag: Tag)
    ensures match LastArg(opts, tag)
            case None => forall i | 0 <= i < |opts| :: opts[i].tag != tag
            case Some(arg) => exists i :: 0 <= i < |opts| && opts[i] == Opt(tag, arg)
                                          && forall j | i < j < |opts| :: opts[j].tag != tag
  {
    if opts != [] {
      var front, last := opts[..|opts| - 1], opts[|opts| - 1];
      LastArgMeaning(front, tag);
      if last.tag == tag {
        assert opts[|opts| - 1] == Opt(tag, last.arg);
      } else if LastArg(front, tag).Some? {
        var i :| 0 <= i < |front| && front[i] == Opt(tag, LastArg(front, tag).value)
                 && forall j | i < j < |front| :: front[j].tag != tag;
        assert opts[i] == front[i];
        forall j | i < j < |opts| ensures opts[j].tag != tag {
          if j < |front| { assert opts[j] == front[j]; }
        }
      }
    }
  }

  // ------------------------------------------------- cut at --type

  datatype Cut = Cut(segs: seq<seq<Opt>>, tail: seq<Opt>)

  function Split(opts: seq<Opt>): Cut {
    if opts == [] then Cut([], [])
    else
      var c, o := Split(opts[..|opts| - 1]), opts[|opts| - 1];
      if o.tag == Type then Cut(c.segs + [c.tail + [o]], []) else Cut(c.segs, c.tail + [o])
  }

  /** Options up to and including one --type. */
  ghost predicate IsSegment(seg: seq<Opt>) {
    seg != [] && seg[|seg| - 1].tag == Type && NoType(seg[..|seg| - 1])
  }

  ghost predicate NoType(opts: seq<Opt>) {
    forall o | o in opts :: o.tag != Type
  }

  ghost predicate AllSegments(segs: seq<seq<Opt>>) {
    forall s | s in segs :: IsSegment(s)
  }

  function Flatten(segs: seq<seq<Opt>>): seq<Opt> {
    if segs == [] then [] else Flatten(segs[..|segs| - 1]) + segs[|segs| - 1]
  }

  lemma NoTypeSnoc(opts: seq<Opt>, o: Opt)
    ensures NoType(opts + [o]) <==> NoType(opts) && o.tag != Type
  {
    assert forall x | x in opts :: x in opts + [o];
    assert o in opts + [o];
  }

  lemma SegmentsSnoc(segs: seq<seq<Opt>>, tail: seq<Opt>, o: Opt)
    requires AllSegments(segs) && NoType(tail) && o.tag == Type
    ensures AllSegments(segs + [tail + [o]])
    ensures Flatten(segs + [tail + [o]]) == Flatten(segs) + tail + [o]
  {
    var seg := tail + [o];
    assert seg[..|seg| - 1] == tail;
    assert IsSegment(seg);
    assert (segs + [seg])[..|segs|] == segs;
  }

  /** The cut loses nothing and cuts exactly after each --type. */
  lemma {:induction false} SplitJoins(opts: seq<Opt>)
    ensures Flatten(Split(opts).segs) + Split(opts).tail == opts
    ensures AllSegments(Split(opts).segs) && NoType(Split(opts).tail)
  {
    hide Split, Flatten, IsSegment, NoType, AllSegments;
    NoTypeNil();
    if opts == [] {
      NothingCut();
    } else {
      var front, o := opts[..|opts| - 1], opts[|opts| - 1];
      SplitJoins(front);
      var c := Split(front);
      assert opts == front + [o];
      SplitSnoc(front, o);
      NoTypeSnoc(c.tail, o);
      if o.tag == Type { SegmentsSnoc(c.segs, c.tail, o); }
      assert Flatten(c.segs) + (c.tail + [o]) == opts;
    }
  }

  lemma NoTypeNil()
    ensures NoType([]) && AllSegments([])
  {
  }

  lemma SplitSnoc(front: seq<Opt>, o: Opt)
    ensures Split(front + [o]) ==
            if o.tag == Type then Cut(Split(front).segs + [Split(front).tail + [o]], [])
            else Cut(Split(front).segs, Split(front).tail + [o])
  {
    assert (front + [o])[..|front|] == front;
  }

  lemma {:induction false} SplitTail(opts: seq<Opt>, tail: seq<Opt>)
    requires NoType(tail)
    ensures Split(opts + tail) == Cut(Split(opts).segs, Split(opts).tail + tail)
  {
    hide Split, NoType;
    if tail == [] {
      assert opts + tail == opts && Split(opts).tail + tail == Split(opts).tail;
    } else {
      var front, o := tail[..|tail| - 1], tail[|tail| - 1];
      assert tail == front + [o];
      NoTypeSnoc(front, o);
      SplitTail(opts, front);
      assert opts + tail == (opts + front) + [o];
      SplitSnoc(opts + front, o);
      assert (Split(opts).tail + front) + [o] == Split(opts).tail + tail;
    }
  }

  lemma SegmentParts(segs: seq<seq<Opt>>)
    requires segs != [] && AllSegments(segs)
    ensures AllSegments(segs[..|segs| - 1])
    ensures IsSegment(segs[|segs| - 1])
    ensures Flatten(segs) == Flatten(segs[..|segs| - 1]) + segs[|segs| - 1]
  {
    assert forall s | s in segs[..|segs| - 1] :: s in segs;
  }

  lemma SegmentEnds(seg: seq<Opt>)
    requires IsSegment(seg)
    ensures seg != [] && seg[|seg| - 1].tag == Type && NoType(seg[..|seg| - 1])
  {
  }

  lemma NothingCut()
    ensures Split([]) == Cut([], []) && Flatten([]) == []
  {
  }

  /** And it is the only such cut. */
  lemma {:induction false} SplitUnique(segs: seq<seq<Opt>>, tail: seq<Opt>)
    requires AllSegments(segs) && NoType(tail)
    ensures Split(Flatten(segs) + tail) == Cut(segs, tail)
  {
    hide Split, Flatten, NoType, AllSegments, IsSegment;
    assert [] + tail == tail;
    if segs == [] {
      NothingCut();
      SplitTail([], tail);
    } else {
      SegmentParts(segs);
      var front, seg := segs[..|segs| - 1], segs[|segs| - 1];
      SegmentEnds(seg);
      var body, o := seg[..|seg| - 1], seg[|seg| - 1];
      SplitUnique(front, body);
      assert Flatten(segs) == (Flatten(front) + body) + [o];
      SplitSnoc(Flatten(front) + body, o);
      assert body + [o] == seg && front + [seg] == segs;
      SplitTail(Flatten(segs), tail);
    }
  }

  // ------------------------------------------------- profiles

  function SizeOf(arg: Option<string>, junk: int): int {
    match arg
    case None => -1
    case Some(text) => ExtractInt(text, junk)
  }

  /** The profile a run of options describes: the last value of each field. */
  function SegmentProfile(seg: seq<Opt>, junk: int): Profile {
    Profile(LastOr(seg, Name, ""), SizeOf(LastArg(seg, Width), junk), SizeOf(LastArg(seg, Height), junk),
            LastOr(seg, Url, ""), LastOr(seg, Snapurl, ""),
            match LastArg(seg, Type) case None => -1 case Some(text) => KindOf(text))
  }

  function Stored(segs: seq<seq<Opt>>, junk: int): map<string, Profile> {
    if segs == [] then map[]
    else
      var p := SegmentProfile(segs[|segs| - 1], junk);
      Stored(segs[..|segs| - 1], junk)[p.name := p]
  }

  // ------------------------------------------------- which options are accepted

  /** The option by itself: help, version and unknown options end a process that is no daemon. */
  predicate ArgOk(o: Opt, daemonized: bool, junk: int) {
    if o.tag == Help || o.tag == Version || o.tag == Unknown then daemonized
    else if o.tag == Width || o.tag == Height then SizeOk(ExtractInt(o.arg, junk))
    else if o.tag == Type then KindOk(KindOf(o.arg))
    else if o.tag == TzFormat then ExtractUnsigned(o.arg, Wrap(junk)) < TZ_CNT_FORMATS
    else true
  }

  /** An int bit pattern read as unsigned. */
  function Wrap(n: int): nat {
    n % 0x1_0000_0000
  }

  /** The commit at a --type: every field is set and no earlier segment has the same name. */
  predicate CommitOk(segs: seq<seq<Opt>>, seg: seq<Opt>, junk: int) {
    var p := SegmentProfile(seg, junk);
    Complete(p) && p.name !in Stored(segs, junk)
  }

  predicate GoodAt(opts: seq<Opt>, k: nat, daemonized: bool, junk: int)
    requires k < |opts|
  {
    && ArgOk(opts[k], daemonized, junk)
    && (opts[k].tag == Type ==>
          CommitOk(Split(opts[..k]).segs, Split(opts[..k]).tail + [opts[k]], junk))
  }

  ghost predicate Accepted(opts: seq<Opt>, daemonized: bool, junk: int) {
    forall k | 0 <= k < |opts| :: GoodAt(opts, k, daemonized, junk)
  }

  // ------------------------------------------------- everything else

  datatype DaemonSettings = DaemonSettings(
    noChdir: bool, noFork: bool, noClose: bool, pidFile: Option<string>, logFile: Option<string>)

  datatype DeviceSettings = DeviceSettings(
    port: int, user: string, password: string, manufacturer: string, model: string,
    firmwareVersion: string, serialNumber: string, hardwareId: string, scopes: seq<string>)

  datatype PtzSettings = PtzSettings(
    enable: bool, moveLeft: string, moveRight: string, moveUp: string, moveDown: string,
    moveStop: string, movePreset: string)

  function TzOf(opts: seq<Opt>, junk: int): nat {
    match LastArg(opts, TzFormat)
    case None => 0
    case Some(text) => ExtractUnsigned(text, Wrap(junk))
  }

  // Last value, or the default of the constructors.

  /** `built` is what the macros of the build set. */
  function DaemonOf(opts: seq<Opt>, built: DaemonSettings): DaemonSettings {
    DaemonSettings(built.noChdir || Seen(opts, NoChdir), built.noFork || Seen(opts, NoFork),
                   built.noClose || Seen(opts, NoClose),
                   if Seen(opts, PidFile) then LastArg(opts, PidFile) else built.pidFile,
                   if Seen(opts, LogFile) then LastArg(opts, LogFile) else built.logFile)
  }

  function PortOf(opts: seq<Opt>): int {
    match LastArg(opts, Port)
    case None => 1000
    case Some(text) => Atoi(text)
  }

  function DeviceOf(opts: seq<Opt>): DeviceSettings {
    DeviceSettings(PortOf(opts), LastOr(opts, User, "admin"), LastOr(opts, Password, "admin"),
                   LastOr(opts, Manufacturer, "Manufacturer"), LastOr(opts, Model, "Model"),
                   LastOr(opts, FirmwareVer, "FirmwareVersion"), LastOr(opts, SerialNum, "SerialNumber"),
                   LastOr(opts, HardwareId, "HardwareId"), Args(opts, Scope))
  }

  function PtzOf(opts: seq<Opt>): PtzSettings {
    PtzSettings(Seen(opts, Ptz), LastOr(opts, MoveLeft, ""), LastOr(opts, MoveRight, ""), LastOr(opts, MoveUp, ""),
                LastOr(opts, MoveDown, ""), LastOr(opts, MoveStop, ""), LastOr(opts, MovePreset, ""))
  }

  /** One more option changes the values of its own tag only. */
  lemma Snoc(front: seq<Opt>, o: Opt, t: Tag)
    ensures LastArg(front + [o], t) == if o.tag == t then Some(o.arg) else LastArg(front, t)
    ensures Args(front + [o], t) == if o.tag == t then Args(front, t) + [o.arg] else Args(front, t)
  {
    assert (front + [o])[..|front|] == front;
  }
}
