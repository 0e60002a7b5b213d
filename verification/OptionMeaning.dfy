/** The command line once more, in terms of single options only: which streams are accepted, and what
    each field of each stored profile is. */
module OptionMeaning {
  import opened Wrappers
  import opened Text
  import opened Profiles
  import opened Options
  import opened OptionTheorems

  /** Args takes each argument of its tag, in the order of the stream. */
  lemma {:induction false} ArgsMeaning(a: seq<Opt>, b: seq<Opt>, o: Opt, tag: Tag)
    ensures Args([o], tag) == if o.tag == tag then [o.arg] else []
    ensures Args(a + b, tag) == Args(a, tag) + Args(b, tag)
  {
    hide Args, LastArg;
    NoArgs(tag);
    assert [] + [o] == [o];
    Snoc([], o, tag);
    if b == [] {
      assert a + b == a;
    } else {
      var front, last := b[..|b| - 1], b[|b| - 1];
      ArgsMeaning(a, front, o, tag);
      Snoc(a + front, last, tag);
      Snoc(front, last, tag);
      assert b == front + [last] && a + b == (a + front) + [last];
    }
  }

  lemma NoArgs(tag: Tag)
    ensures Args([], tag) == []
  {
  }

  // ------------------------------------------------- acceptance

  /** What is asked of each option. */
  predicate OptionFine(o: Opt, d: bool, junk: int) {
    && (o.tag == Help || o.tag == Version || o.tag == Unknown ==> d)
    && (o.tag == Width || o.tag == Height ==> 100 <= ExtractInt(o.arg, junk) < 10000)
    && (o.tag == Type ==> o.arg == "JPEG" || o.arg == "MPEG4" || o.arg == "H264")
    && (o.tag == TzFormat ==> ExtractUnsigned(o.arg, junk % 0x1_0000_0000) < 6)
  }

  /** What is asked of each segment: a name and a URL, of which the last is not empty, a width and a height. */
  predicate SegmentFine(seg: seq<Opt>) {
    && LastArg(seg, Name).Some? && LastArg(seg, Name).value != ""
    && LastArg(seg, Url).Some? && LastArg(seg, Url).value != ""
    && LastArg(seg, Width).Some? && LastArg(seg, Height).Some?
  }

  lemma OptionFineIff(o: Opt, d: bool, junk: int)
    ensures OptionFine(o, d, junk) <==> ArgOk(o, d, junk)
  {
    hide ExtractInt, ExtractUnsigned;
  }

  lemma SegmentFineIff(seg: seq<Opt>, d: bool, junk: int)
    requires ArgsOk(seg, d, junk) && IsSegment(seg)
    ensures Complete(SegmentProfile(seg, junk)) <==> SegmentFine(seg)
    ensures SegmentFine(seg) ==> NameOf(seg, junk) == LastArg(seg, Name).value
  {
    hide ExtractInt, ArgOk, LastArg;
    LastIsFine(seg, Width, d, junk);
    LastIsFine(seg, Height, d, junk);
    LastIsFine(seg, Type, d, junk);
    TypeEnds(seg);
  }

  lemma LastIsFine(seg: seq<Opt>, tag: Tag, d: bool, junk: int)
    requires ArgsOk(seg, d, junk)
    ensures LastArg(seg, tag).Some? ==> OptionFine(Opt(tag, LastArg(seg, tag).value), d, junk)
  {
    hide ArgOk, LastArg, OptionFine;
    LastIsMember(seg, tag);
    if LastArg(seg, tag).Some? { OptionFineIff(Opt(tag, LastArg(seg, tag).value), d, junk); }
  }

  lemma TypeEnds(seg: seq<Opt>)
    requires IsSegment(seg)
    ensures LastArg(seg, Type) == Some(seg[|seg| - 1].arg)
  {
  }

  lemma {:induction false} ArgsOkFlatten(segs: seq<seq<Opt>>, d: bool, junk: int)
    ensures ArgsOk(Flatten(segs), d, junk) <==> forall s | s in segs :: ArgsOk(s, d, junk)
  {
    hide ArgOk;
    if segs != [] {
      var front, last := segs[..|segs| - 1], segs[|segs| - 1];
      ArgsOkFlatten(front, d, junk);
      assert segs == front + [last];
      ArgsOkConcat(Flatten(front), last, d, junk);
    }
  }

  lemma ArgsOkConcat(a: seq<Opt>, b: seq<Opt>, d: bool, junk: int)
    ensures ArgsOk(a + b, d, junk) <==> ArgsOk(a, d, junk) && ArgsOk(b, d, junk)
  {
    hide ArgOk;
    assert forall o :: o in a + b <==> o in a || o in b;
  }

  /** No two segments have the same last name. */
  ghost predicate NamesDiffer(segs: seq<seq<Opt>>) {
    forall i, j | 0 <= i < j < |segs| :: LastArg(segs[i], Name) != LastArg(segs[j], Name)
  }

  lemma NamesDifferIff(segs: seq<seq<Opt>>, d: bool, junk: int)
    requires forall s | s in segs :: ArgsOk(s, d, junk) && IsSegment(s) && SegmentFine(s)
    ensures Distinct(segs, junk) <==> NamesDiffer(segs)
  {
    hide ArgsOk, IsSegment, LastArg;
    forall i | 0 <= i < |segs| ensures LastArg(segs[i], Name) == Some(NameOf(segs[i], junk)) {
      SegmentFineIff(segs[i], d, junk);
    }
    hide NameOf, SegmentFine;
  }

  /** A stream is accepted exactly when each of its options and of its segments is fine, and no two
      segments have the same name. */
  lemma AcceptedIff(opts: seq<Opt>, d: bool, junk: int)
    ensures var segs := Split(opts).segs;
            Accepted(opts, d, junk) <==>
            && (forall o | o in opts :: OptionFine(o, d, junk))
            && (forall seg | seg in segs :: SegmentFine(seg))
            && NamesDiffer(segs)
  {
    var c := Split(opts);
    SplitJoins(opts);
    AcceptedTail(Flatten(c.segs), c.tail, d, junk);
    AcceptedSegments(c.segs, d, junk);
    CommitsIff(c.segs, d, junk);
    ArgsOkFlatten(c.segs, d, junk);
    ArgsOkConcat(Flatten(c.segs), c.tail, d, junk);
    forall o ensures OptionFine(o, d, junk) <==> ArgOk(o, d, junk) { OptionFineIff(o, d, junk); }
    hide Split, Flatten, Accepted, OptionFine, ArgOk, Complete, SegmentProfile, IsSegment, NoType, Commits;
    assert (forall o | o in opts :: OptionFine(o, d, junk)) <==> ArgsOk(opts, d, junk);
    hide ArgsOk, SegmentFine, Distinct, NamesDiffer;
    if ArgsOk(opts, d, junk) {
      forall s | s in c.segs ensures Complete(SegmentProfile(s, junk)) <==> SegmentFine(s) {
        SegmentFineIff(s, d, junk);
      }
      if forall s | s in c.segs :: SegmentFine(s) { NamesDifferIff(c.segs, d, junk); }
    }
  }

  // ------------------------------------------------- what is stored

  /** A stored profile, field by field, from the options of its segment: the last of each, and the type
      that the text of the --type selects. */
  predicate ProfileFrom(p: Profile, seg: seq<Opt>, junk: int)
    requires seg != []
  {
    var t := seg[|seg| - 1].arg;
    && LastArg(seg, Name) == Some(p.name) && LastArg(seg, Url) == Some(p.url)
    && p.snapurl == (if LastArg(seg, Snapurl).Some? then LastArg(seg, Snapurl).value else "")
    && LastArg(seg, Width).Some? && p.width == ExtractInt(LastArg(seg, Width).value, junk)
    && LastArg(seg, Height).Some? && p.height == ExtractInt(LastArg(seg, Height).value, junk)
    && 0 <= p.kind <= 2
    && (p.kind == 0 <==> t == "JPEG") && (p.kind == 1 <==> t == "MPEG4") && (p.kind == 2 <==> t == "H264")
  }

  lemma SegmentProfileMeans(seg: seq<Opt>, d: bool, junk: int)
    requires ArgsOk(seg, d, junk) && IsSegment(seg) && SegmentFine(seg)
    ensures ProfileFrom(SegmentProfile(seg, junk), seg, junk)
  {
    hide ExtractInt, ArgOk, LastArg, IsSegment;
    SegmentEnds(seg);
    LastIsFine(seg, Type, d, junk);
    TypeEnds(seg);
  }

  /** Each segment has its profile under its last name, and nothing else is stored. */
  ghost predicate StoredAsGiven(stored: map<string, Profile>, opts: seq<Opt>, junk: int) {
    && (forall seg | seg in Split(opts).segs ::
          && seg != [] && LastArg(seg, Name).Some? && LastArg(seg, Name).value in stored
          && ProfileFrom(stored[LastArg(seg, Name).value], seg, junk))
    && (forall n | n in stored :: exists seg :: seg in Split(opts).segs && LastArg(seg, Name) == Some(n))
  }

  /** After every accepted stream the profile of each segment is found under its last name, with the last
      URL, snapshot URL, width and height of the segment, and the encoding is JPEG, MPEG4 or H264 (0, 1, 2)
      exactly as the text of its --type says; and nothing else is stored. */
  lemma StoredMeaning(opts: seq<Opt>, d: bool, junk: int)
    requires Accepted(opts, d, junk)
    ensures StoredAsGiven(Stored(Split(opts).segs, junk), opts, junk)
  {
    var c := Split(opts);
    AcceptedParts(opts, d, junk);
    StoredKeys(c.segs, junk);
    hide Split, ArgsOk, Stored, Distinct, LastArg, SegmentFine, ProfileFrom, NameOf, SegmentProfile, IsSegment;
    forall seg | seg in c.segs
      ensures seg != [] && LastArg(seg, Name).Some? && LastArg(seg, Name).value == NameOf(seg, junk)
      ensures NameOf(seg, junk) in Stored(c.segs, junk)
      ensures ProfileFrom(Stored(c.segs, junk)[NameOf(seg, junk)], seg, junk)
    {
      var i :| 0 <= i < |c.segs| && c.segs[i] == seg;
      SegmentEnds(seg);
      NameGiven(seg, d, junk);
      StoredAt(c.segs, i, junk);
      SegmentProfileMeans(seg, d, junk);
    }
    forall n | n in Stored(c.segs, junk) ensures exists seg :: seg in c.segs && LastArg(seg, Name) == Some(n) {
      var i :| 0 <= i < |c.segs| && NameOf(c.segs[i], junk) == n;
      assert c.segs[i] in c.segs;
    }
  }

  lemma AcceptedParts(opts: seq<Opt>, d: bool, junk: int)
    requires Accepted(opts, d, junk)
    ensures var segs := Split(opts).segs;
            && Distinct(segs, junk)
            && forall s | s in segs :: ArgsOk(s, d, junk) && IsSegment(s) && SegmentFine(s)
  {
    hide Accepted, Commits, ArgsOk, SegmentFine, Complete, SegmentProfile, IsSegment, Flatten, NoType, Split;
    var c := Split(opts);
    SplitJoins(opts);
    AcceptedTail(Flatten(c.segs), c.tail, d, junk);
    AcceptedSegments(c.segs, d, junk);
    CommitsIff(c.segs, d, junk);
    forall s | s in c.segs ensures ArgsOk(s, d, junk) && IsSegment(s) && SegmentFine(s) {
      SegmentFineIff(s, d, junk);
    }
  }

  lemma NameGiven(seg: seq<Opt>, d: bool, junk: int)
    requires ArgsOk(seg, d, junk) && IsSegment(seg) && SegmentFine(seg)
    ensures LastArg(seg, Name) == Some(NameOf(seg, junk))
  {
    hide ArgsOk, IsSegment, LastArg, NameOf;
    SegmentFineIff(seg, d, junk);
  }
}
