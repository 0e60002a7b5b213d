/** The handlers of src/ServiceMedia.cpp that read the stored profiles. */
module Media {
  import opened Wrappers
  import opened Text
  import opened Profiles
  import opened Options
  import opened OptionTheorems
  import opened OptionMeaning
  import opened NameOrder
  import opened Network
  import opened Template

  type Store = map<string, Profile>

  // What the responses hold of a profile.
  datatype SourceConfiguration = SourceConfiguration(
    token: string, name: string, sourceToken: string, width: int, height: int)
  datatype EncoderConfiguration = EncoderConfiguration(
    token: string, name: string, width: int, height: int, encoding: int)
  datatype VideoSource = VideoSource(token: string, width: int, height: int)
  datatype MediaProfile = MediaProfile(
    token: string, name: string, source: SourceConfiguration, encoder: EncoderConfiguration, hasPtz: bool)

  /** get_video_src_cnf */
  function SourceOf(p: Profile): SourceConfiguration {
    SourceConfiguration(p.name, p.name, p.name, p.width, p.height)
  }

  /** get_video_enc_cfg */
  function EncoderOf(p: Profile): EncoderConfiguration {
    EncoderConfiguration(p.name, p.name, p.width, p.height, p.kind)
  }

  /** get_video_src */
  function VideoSourceOf(p: Profile): VideoSource {
    VideoSource(p.name, p.width, p.height)
  }

  /** get_profile */
  function MediaProfileOf(p: Profile, ptzEnabled: bool): MediaProfile {
    MediaProfile(p.name, p.name, SourceOf(p), EncoderOf(p), ptzEnabled)
  }

  /** The iteration order of the map. */
  function Names(profiles: Store): (names: seq<string>)
    ensures |names| == |profiles| && forall n :: n in names <==> n in profiles
  {
    assert |profiles.Keys| == |profiles|;
    Sorted(profiles.Keys)
  }

  function Lookup(profiles: Store, token: string): Option<Profile> {
    if token in profiles then Some(profiles[token]) else None
  }

  /** What a response says of a stored profile, field by field: its name is every token and name, both
      configurations have its size, the encoder has its type, and there is a PTZ part when PTZ is enabled. */
  ghost predicate Shows(m: MediaProfile, p: Profile, ptzEnabled: bool) {
    && m.token == m.name == p.name && (m.hasPtz <==> ptzEnabled)
    && m.source.token == m.source.name == m.source.sourceToken == p.name
    && m.source.width == p.width && m.source.height == p.height
    && m.encoder.token == m.encoder.name == p.name
    && m.encoder.width == p.width && m.encoder.height == p.height && m.encoder.encoding == p.kind
  }

  // ------------------------------------------------- lists

  /** The profiles in the order of their keys. */
  function Listed(profiles: Store): (list: seq<Profile>)
    ensures |list| == |profiles|
  {
    var names := Names(profiles);
    seq(|names|, i requires 0 <= i < |names| => profiles[names[i]])
  }

  /** In every reachable configuration a listing holds each stored profile once, in strictly
      ascending order of the names, and it is the only such list. */
  lemma ListedOnceInOrder(profiles: Store)
    requires ProfilesOk(profiles)
    ensures forall p :: p in Listed(profiles) <==> p.name in profiles && profiles[p.name] == p
    ensures forall i, j | 0 <= i < j < |profiles| :: Less(Listed(profiles)[i].name, Listed(profiles)[j].name)
    ensures forall names | Ascending(names) && (forall n :: n in names <==> n in profiles) :: names == Names(profiles)
  {
    hide Less, Usable;
    SortedAscends(profiles.Keys);
    var list, names := Listed(profiles), Names(profiles);
    assert forall i | 0 <= i < |names| ::
      names[i] in profiles && list[i] == profiles[names[i]] && list[i].name == names[i];
    forall p ensures p in list <==> p.name in profiles && profiles[p.name] == p {
      if p.name in profiles && profiles[p.name] == p {
        var i :| 0 <= i < |names| && names[i] == p.name;
        assert list[i] == p;
      }
    }
    forall other | Ascending(other) && (forall n :: n in other <==> n in profiles) ensures other == names {
      SortedUnique(profiles.Keys, other);
    }
  }

  method GetProfiles(profiles: Store, ptzEnabled: bool) returns (list: seq<MediaProfile>)
    ensures |list| == |profiles|
    ensures forall i | 0 <= i < |list| :: list[i] == MediaProfileOf(Listed(profiles)[i], ptzEnabled)
    ensures forall i | 0 <= i < |list| :: Shows(list[i], Listed(profiles)[i], ptzEnabled)
  {
    var names := Names(profiles);
    list := [];
    for i := 0 to |names|
      invariant |list| == i
      invariant forall j | 0 <= j < i :: list[j] == MediaProfileOf(Listed(profiles)[j], ptzEnabled)
    {
      list := list + [MediaProfileOf(profiles[names[i]], ptzEnabled)];
    }
  }

  method GetVideoSources(profiles: Store) returns (list: seq<VideoSource>)
    ensures |list| == |profiles|
    ensures forall i | 0 <= i < |list| ::
      var p := Listed(profiles)[i];
      list[i].token == p.name && list[i].width == p.width && list[i].height == p.height
  {
    var names := Names(profiles);
    list := [];
    for i := 0 to |names|
      invariant |list| == i
      invariant forall j | 0 <= j < i :: list[j] == VideoSourceOf(Listed(profiles)[j])
    {
      list := list + [VideoSourceOf(profiles[names[i]])];
    }
  }

  // ------------------------------------------------- lookups

  /** find() in the map; None is SOAP_FAULT. */
  method GetProfile(profiles: Store, ptzEnabled: bool, token: string) returns (profile: Option<MediaProfile>)
    ensures profile.Some? <==> token in profiles
    ensures ProfilesOk(profiles) && profile.Some? ==>
      profile.value.token == profile.value.source.token == profile.value.encoder.token == token
    ensures profile.Some? ==> Shows(profile.value, profiles[token], ptzEnabled)
  {
    profile := if token in profiles then Some(MediaProfileOf(profiles[token], ptzEnabled)) else None;
  }

  /** A linear scan that ends at the first match. In every reachable configuration it finds what a
      lookup by key finds, and leaves the field unset for an unknown token. */
  method GetVideoSourceConfiguration(profiles: Store, token: string)
    returns (configuration: Option<SourceConfiguration>)
    ensures ProfilesOk(profiles) ==>
      configuration == match Lookup(profiles, token) case Some(p) => Some(SourceOf(p)) case None => None
    ensures configuration.Some? <==> exists n :: n in profiles && profiles[n].name == token
    ensures configuration.Some? ==> configuration.value.token == token
    ensures ProfilesOk(profiles) && configuration.Some? ==> token in profiles
    ensures ProfilesOk(profiles) && configuration.Some? ==>
      configuration.value == SourceConfiguration(token, token, token, profiles[token].width, profiles[token].height)
  {
    var names := Names(profiles);
    hide ProfilesOk;
    configuration := None;
    for i := 0 to |names|
      invariant configuration == None
      invariant forall j | 0 <= j < i :: profiles[names[j]].name != token
    {
      var vsc := SourceOf(profiles[names[i]]);
      if token == vsc.token {
        configuration := Some(vsc);
        OwnKey(profiles, names[i]);
        break;
      }
    }
    KnownToken(profiles, token);
  }

  method GetVideoEncoderConfiguration(profiles: Store, token: string)
    returns (configuration: Option<EncoderConfiguration>)
    ensures ProfilesOk(profiles) ==>
      configuration == match Lookup(profiles, token) case Some(p) => Some(EncoderOf(p)) case None => None
    ensures configuration.Some? <==> exists n :: n in profiles && profiles[n].name == token
    ensures configuration.Some? ==> configuration.value.token == token
    ensures ProfilesOk(profiles) && configuration.Some? ==> token in profiles
    ensures ProfilesOk(profiles) && configuration.Some? ==>
      configuration.value.name == token && configuration.value.encoding == profiles[token].kind
    ensures ProfilesOk(profiles) && configuration.Some? ==>
      configuration.value.width == profiles[token].width && configuration.value.height == profiles[token].height
  {
    var names := Names(profiles);
    hide ProfilesOk;
    configuration := None;
    for i := 0 to |names|
      invariant configuration == None
      invariant forall j | 0 <= j < i :: profiles[names[j]].name != token
    {
      var encoderConfiguration := EncoderOf(profiles[names[i]]);
      if token == encoderConfiguration.token {
        configuration := Some(encoderConfiguration);
        OwnKey(profiles, names[i]);
        break;
      }
    }
    KnownToken(profiles, token);
  }

  lemma OwnKey(profiles: Store, n: string)
    requires n in profiles
    ensures ProfilesOk(profiles) ==> profiles[n].name == n
  {
  }

  lemma KnownToken(profiles: Store, token: string)
    ensures ProfilesOk(profiles) && token in profiles ==> profiles[token].name == token
  {
  }

  /** None is SOAP_FAULT. */
  method GetStreamUriOf(profiles: Store, token: string,
                        ifs: seq<Interface>, left: seq<Leftover>, client: Address, littleEndian: bool)
    returns (uri: Option<string>)
    requires |left| == |ifs|
    ensures uri == match Lookup(profiles, token)
                   case Some(p) => Some(ReplaceFirst(p.url, 's', ServerIp(ifs, left, client, littleEndian)))
                   case None => None
    ensures uri.Some? <==> token in profiles
    ensures uri.Some? ==>
      exists ip ::
        IsAnswer(ifs, left, client, littleEndian, ip) && FirstReplaced(profiles[token].url, 's', ip, uri.value)
  {
    hide IsAnswer, FirstReplaced;
    if token !in profiles { return None; }
    var text := GetStreamUri(profiles[token].url, ifs, left, client, littleEndian);
    uri := Some(text);
  }

  // ------------------------------------------------- encoder instances

  const INSTANCES_NUMBER := 3

  ghost function OfKind(profiles: Store, names: set<string>, kind: int): set<string>
    requires names <= profiles.Keys
  {
    set n | n in names && profiles[n].kind == kind
  }

  /** Three instances for each profile of a type, and the total is their sum. It is three times the
      number of profiles exactly when every profile has one of the three types. */
  method GetGuaranteedNumberOfVideoEncoderInstances(profiles: Store)
    returns (total: nat, jpeg: nat, mpeg4: nat, h264: nat)
    ensures jpeg == 3 * |OfKind(profiles, profiles.Keys, 0)|
    ensures mpeg4 == 3 * |OfKind(profiles, profiles.Keys, 1)|
    ensures h264 == 3 * |OfKind(profiles, profiles.Keys, 2)|
    ensures total == jpeg + mpeg4 + h264
    ensures total == 3 * |profiles| <==> forall n | n in profiles :: 0 <= profiles[n].kind <= 2
    ensures ProfilesOk(profiles) ==> total == 3 * |profiles|
  {
    total, jpeg, mpeg4, h264 := 0, 0, 0, 0;
    var names := Names(profiles);
    ghost var seen: set<string> := {};
    for i := 0 to |names|
      invariant seen == Prefix(names, i)
      invariant jpeg == 3 * |OfKind(profiles, seen, JPEG)|
      invariant mpeg4 == 3 * |OfKind(profiles, seen, MPEG4)|
      invariant h264 == 3 * |OfKind(profiles, seen, H264)|
      invariant total == jpeg + mpeg4 + h264
    {
      var kind := profiles[names[i]].kind;
      SortedDistinct(profiles, i);
      OfKindGrows(profiles, seen, names[i]);
      seen := seen + {names[i]};
      if kind == JPEG {
        jpeg := jpeg + INSTANCES_NUMBER;
        total := total + INSTANCES_NUMBER;
      } else if kind == MPEG4 {
        mpeg4 := mpeg4 + INSTANCES_NUMBER;
        total := total + INSTANCES_NUMBER;
      } else if kind == H264 {
        h264 := h264 + INSTANCES_NUMBER;
        total := total + INSTANCES_NUMBER;
      }
    }
    assert seen == profiles.Keys;
    KindsCount(profiles);
  }

  function Prefix(names: seq<string>, i: nat): set<string>
    requires i <= |names|
  {
    set n | n in names[..i]
  }

  lemma SortedDistinct(profiles: Store, i: nat)
    requires i < |profiles|
    ensures Names(profiles)[i] !in Prefix(Names(profiles), i)
    ensures Prefix(Names(profiles), i + 1) == Prefix(Names(profiles), i) + {Names(profiles)[i]}
  {
    hide Less, Sorted;
    SortedAscends(profiles.Keys);
    PrefixGrows(Names(profiles), i);
  }

  lemma PrefixGrows(names: seq<string>, i: nat)
    requires i < |names| && Ascending(names)
    ensures names[i] !in Prefix(names, i) && Prefix(names, i + 1) == Prefix(names, i) + {names[i]}
  {
    hide Less;
    Irreflexive(names[i]);
    assert names[..i + 1] == names[..i] + [names[i]];
  }

  lemma OfKindGrows(profiles: Store, names: set<string>, n: string)
    requires names <= profiles.Keys && n in profiles && n !in names
    ensures forall k :: |OfKind(profiles, names + {n}, k)| ==
                        |OfKind(profiles, names, k)| + if profiles[n].kind == k then 1 else 0
  {
    forall k ensures |OfKind(profiles, names + {n}, k)| ==
                     |OfKind(profiles, names, k)| + if profiles[n].kind == k then 1 else 0
    {
      if profiles[n].kind == k {
        assert OfKind(profiles, names + {n}, k) == OfKind(profiles, names, k) + {n};
      } else {
        assert OfKind(profiles, names + {n}, k) == OfKind(profiles, names, k);
      }
    }
  }

  /** The three kinds partition the profiles of a known type. */
  lemma KindsCount(profiles: Store)
    ensures var j, m, h := OfKind(profiles, profiles.Keys, 0), OfKind(profiles, profiles.Keys, 1),
                           OfKind(profiles, profiles.Keys, 2);
            |j| + |m| + |h| == |profiles| <==> forall n | n in profiles :: KindOk(profiles[n].kind)
  {
    var j, m, h := OfKind(profiles, profiles.Keys, 0), OfKind(profiles, profiles.Keys, 1),
                   OfKind(profiles, profiles.Keys, 2);
    assert j !! m && (j + m) !! h;
    assert |j + m + h| == |j| + |m| + |h|;
    assert |profiles| == |profiles.Keys|;
    SubsetSize(j + m + h, profiles.Keys);
    if j + m + h == profiles.Keys {
      forall n | n in profiles ensures KindOk(profiles[n].kind) {
        assert n in j + m + h;
      }
    } else {
      var n :| n in profiles.Keys && n !in j + m + h;
      assert !KindOk(profiles[n].kind);
    }
  }

  lemma SubsetSize<T>(a: set<T>, b: set<T>)
    requires a <= b
    ensures |a| == |b| <==> a == b
  {
    assert b == a + (b - a);
  }

  // ------------------------------------------------- capability

  /** Whether getMediaServiceCapabilities announces snapshots. */
  method SnapshotUriCapability(profiles: Store) returns (announced: bool)
    ensures announced <==> exists n :: n in profiles && profiles[n].snapurl != ""
  {
    var names := Names(profiles);
    announced := false;
    for i := 0 to |names|
      invariant announced <==> exists j :: 0 <= j < i && profiles[names[j]].snapurl != ""
    {
      if profiles[names[i]].snapurl != "" && !announced {
        announced := true;
      }
    }
    if n :| n in profiles && profiles[n].snapurl != "" {
      var j :| 0 <= j < |names| && names[j] == n;
      assert profiles[names[j]].snapurl != "";
    }
  }

  // ------------------------------------------------- from the command line to the response

  lemma SeenIff(opts: seq<Opt>, tag: Tag)
    ensures Seen(opts, tag) <==> exists o :: o in opts && o.tag == tag
  {
    LastArgMeaning(opts, tag);
  }

  lemma {:induction false} InFlatten(segs: seq<seq<Opt>>, o: Opt)
    ensures o in Flatten(segs) <==> exists s :: s in segs && o in s
  {
    if segs != [] {
      var front, last := segs[..|segs| - 1], segs[|segs| - 1];
      InFlatten(front, o);
      assert segs == front + [last];
    }
  }

  lemma PtzPermutes(segs: seq<seq<Opt>>, segs': seq<seq<Opt>>, tail: seq<Opt>)
    requires multiset(segs) == multiset(segs')
    ensures Seen(Flatten(segs) + tail, Ptz) <==> Seen(Flatten(segs') + tail, Ptz)
  {
    hide Seen, Flatten;
    var a, b := Flatten(segs) + tail, Flatten(segs') + tail;
    SeenIff(a, Ptz);
    SeenIff(b, Ptz);
    forall o ensures o in a <==> o in b {
      InFlatten(segs, o);
      InFlatten(segs', o);
      assert forall s :: s in segs <==> s in multiset(segs);
      assert forall s :: s in segs' <==> s in multiset(segs');
    }
  }

  /** The listing that an accepted option stream leads to. */
  ghost function ProfilesAfter(opts: seq<Opt>, junk: int): seq<MediaProfile> {
    var list := Listed(Stored(Split(opts).segs, junk));
    seq(|list|, i requires 0 <= i < |list| => MediaProfileOf(list[i], PtzOf(opts).enable))
  }

  /** Complete profile segments may come in any order: the stream is accepted all the same, and
      GetProfiles answers with the same list. */
  lemma SegmentOrderInvisible(segs: seq<seq<Opt>>, segs': seq<seq<Opt>>, tail: seq<Opt>, d: bool, junk: int)
    requires AllSegments(segs) && AllSegments(segs') && NoType(tail)
    requires multiset(segs) == multiset(segs') && Accepted(Flatten(segs) + tail, d, junk)
    ensures Accepted(Flatten(segs') + tail, d, junk)
    ensures ProfilesAfter(Flatten(segs') + tail, junk) == ProfilesAfter(Flatten(segs) + tail, junk)
  {
    hide Accepted, AllSegments, NoType, Split, Flatten, Stored, Listed;
    SegmentOrderIrrelevant(segs, segs', tail, d, junk);
    PtzPermutes(segs, segs', tail);
  }

  /** After any accepted stream, for any token: the lookup and both scans agree. */
  method ScansAgree(opts: seq<Opt>, d: bool, junk: int, profiles: Store, ptzEnabled: bool, token: string)
    returns (profile: Option<MediaProfile>, source: Option<SourceConfiguration>, encoder: Option<EncoderConfiguration>)
    requires Accepted(opts, d, junk) && profiles == Stored(Split(opts).segs, junk)
    ensures profile.Some? <==> token in profiles
    ensures profile.Some? <==> source.Some?
    ensures profile.Some? <==> encoder.Some?
    ensures profile.Some? ==> profile.value.source == source.value && profile.value.encoder == encoder.value
  {
    hide Accepted, ProfilesOk;
    AcceptedIsUsable(opts, d, junk);
    profile := GetProfile(profiles, ptzEnabled, token);
    source := GetVideoSourceConfiguration(profiles, token);
    encoder := GetVideoEncoderConfiguration(profiles, token);
  }

  /** After any accepted stream the encoder configuration of each segment's profile says what its --type
      says, with the size that was given last. */
  method EncoderAfter(opts: seq<Opt>, d: bool, junk: int, profiles: Store, seg: seq<Opt>)
    returns (encoder: Option<EncoderConfiguration>)
    requires Accepted(opts, d, junk) && profiles == Stored(Split(opts).segs, junk) && seg in Split(opts).segs
    ensures encoder.Some? && LastArg(seg, Name) == Some(encoder.value.token) && seg != []
    ensures encoder.value.encoding == 0 <==> seg[|seg| - 1].arg == "JPEG"
    ensures encoder.value.encoding == 1 <==> seg[|seg| - 1].arg == "MPEG4"
    ensures encoder.value.encoding == 2 <==> seg[|seg| - 1].arg == "H264"
    ensures LastArg(seg, Width).Some? && encoder.value.width == ExtractInt(LastArg(seg, Width).value, junk)
    ensures LastArg(seg, Height).Some? && encoder.value.height == ExtractInt(LastArg(seg, Height).value, junk)
  {
    hide Accepted, ProfilesOk, Split, Stored, LastArg, ExtractInt;
    AcceptedIsUsable(opts, d, junk);
    StoredMeaning(opts, d, junk);
    encoder := GetVideoEncoderConfiguration(profiles, LastArg(seg, Name).value);
  }

  /** The segments whose --type has the text. */
  function OfType(segs: seq<seq<Opt>>, text: string): set<nat> {
    set i | 0 <= i < |segs| && segs[i] != [] && segs[i][|segs[i]| - 1].arg == text
  }

  lemma {:induction false} ImageSize(places: set<nat>, f: seq<string>, image: set<string>)
    requires forall i | i in places :: i < |f|
    requires forall i, j | i in places && j in places && f[i] == f[j] :: i == j
    requires forall n :: n in image <==> exists i :: i in places && f[i] == n
    ensures |image| == |places|
  {
    if places == {} {
      assert image == {};
    } else {
      var i :| i in places;
      ImageSize(places - {i}, f, image - {f[i]});
    }
  }

  /** Profiles of a kind are as many as segments of a type, when the two match name by name. */
  lemma CountByName(profiles: Store, segs: seq<seq<Opt>>, names: seq<string>, text: string, kind: int)
    requires |names| == |segs| && forall i, j | 0 <= i < j < |names| :: names[i] != names[j]
    requires forall n :: n in profiles <==> n in names
    requires forall i | 0 <= i < |names| :: names[i] in profiles && segs[i] != []
    requires forall i | 0 <= i < |names| ::
               profiles[names[i]].kind == kind <==> segs[i][|segs[i]| - 1].arg == text
    ensures |OfKind(profiles, profiles.Keys, kind)| == |OfType(segs, text)|
  {
    forall n
      ensures n in OfKind(profiles, profiles.Keys, kind) <==> exists i :: i in OfType(segs, text) && names[i] == n
    {
      if n in profiles {
        var i :| 0 <= i < |names| && names[i] == n;
      }
    }
    ImageSize(OfType(segs, text), names, OfKind(profiles, profiles.Keys, kind));
  }

  lemma OneStored(stored: Store, opts: seq<Opt>, junk: int, i: nat)
    requires StoredAsGiven(stored, opts, junk) && i < |Split(opts).segs|
    ensures var seg := Split(opts).segs[i];
            && seg != [] && LastArg(seg, Name).Some? && LastArg(seg, Name).value in stored
            && var kind, text := stored[LastArg(seg, Name).value].kind, seg[|seg| - 1].arg;
               (kind == 0 <==> text == "JPEG") && (kind == 1 <==> text == "MPEG4") && (kind == 2 <==> text == "H264")
  {
    hide LastArg, ExtractInt, Split;
    assert Split(opts).segs[i] in Split(opts).segs;
  }

  lemma OneSegment(stored: Store, opts: seq<Opt>, junk: int, n: string) returns (i: nat)
    requires StoredAsGiven(stored, opts, junk) && n in stored
    ensures i < |Split(opts).segs| && LastArg(Split(opts).segs[i], Name) == Some(n)
  {
    hide LastArg, ProfileFrom, Split;
    var seg :| seg in Split(opts).segs && LastArg(seg, Name) == Some(n);
    i :| 0 <= i < |Split(opts).segs| && Split(opts).segs[i] == seg;
  }

  lemma TypeCount(opts: seq<Opt>, d: bool, junk: int, text: string, kind: int)
    requires Accepted(opts, d, junk)
    requires (kind, text) == (0, "JPEG") || (kind, text) == (1, "MPEG4") || (kind, text) == (2, "H264")
    ensures var stored := Stored(Split(opts).segs, junk);
            |OfKind(stored, stored.Keys, kind)| == |OfType(Split(opts).segs, text)|
  {
    hide Accepted, Split, Stored, LastArg, OfKind, OfType, StoredAsGiven;
    var segs, stored := Split(opts).segs, Stored(Split(opts).segs, junk);
    StoredMeaning(opts, d, junk);
    NamesOfAccepted(opts, d, junk);
    var names := seq(|segs|, i requires 0 <= i < |segs| => LastArg(segs[i], Name).value);
    forall i | 0 <= i < |segs|
      ensures segs[i] != [] && names[i] in stored
      ensures stored[names[i]].kind == kind <==> segs[i][|segs[i]| - 1].arg == text
    {
      OneStored(stored, opts, junk, i);
    }
    forall n ensures n in stored <==> n in names {
      if n in stored {
        var i := OneSegment(stored, opts, junk, n);
        assert names[i] == n;
      }
    }
    CountByName(stored, segs, names, text, kind);
  }

  lemma NamesOfAccepted(opts: seq<Opt>, d: bool, junk: int)
    requires Accepted(opts, d, junk)
    ensures forall seg | seg in Split(opts).segs :: LastArg(seg, Name).Some?
    ensures NamesDiffer(Split(opts).segs)
  {
    hide Accepted, Split, LastArg, OptionFine, NamesDiffer;
    AcceptedIff(opts, d, junk);
  }

  /** And the instance counts are three for each segment with the --type, under its own encoding. */
  method InstancesAfter(opts: seq<Opt>, d: bool, junk: int, profiles: Store)
    returns (total: nat, jpeg: nat, mpeg4: nat, h264: nat)
    requires Accepted(opts, d, junk) && profiles == Stored(Split(opts).segs, junk)
    ensures jpeg == 3 * |OfType(Split(opts).segs, "JPEG")|
    ensures mpeg4 == 3 * |OfType(Split(opts).segs, "MPEG4")|
    ensures h264 == 3 * |OfType(Split(opts).segs, "H264")|
    ensures total == jpeg + mpeg4 + h264
  {
    hide Accepted, ProfilesOk, Split, Stored, OfKind, OfType;
    TypeCount(opts, d, junk, "JPEG", 0);
    TypeCount(opts, d, junk, "MPEG4", 1);
    TypeCount(opts, d, junk, "H264", 2);
    total, jpeg, mpeg4, h264 := GetGuaranteedNumberOfVideoEncoderInstances(profiles);
  }
}
