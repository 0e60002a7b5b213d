/** Properties of the meaning of the command line: what every accepted stream stores, and that
    complete profile segments may come in any order. */
module OptionTheorems {
  import opened Text
  import opened Profiles
  import opened Options

  // ------------------------------------------------- acceptance, segment by segment

  ghost predicate ArgsOk(opts: seq<Opt>, d: bool, junk: int) {
    forall o | o in opts :: ArgOk(o, d, junk)
  }

  lemma ArgsOkSnoc(opts: seq<Opt>, o: Opt, d: bool, junk: int)
    ensures ArgsOk(opts + [o], d, junk) <==> ArgsOk(opts, d, junk) && ArgOk(o, d, junk)
  {
    assert forall x | x in opts :: x in opts + [o];
    assert o in opts + [o];
  }

  lemma GoodInFront(opts: seq<Opt>, more: seq<Opt>, k: nat, d: bool, junk: int)
    requires k < |opts|
    ensures GoodAt(opts + more, k, d, junk) <==> GoodAt(opts, k, d, junk)
  {
    assert (opts + more)[..k] == opts[..k];
  }

  lemma AcceptedSnoc(opts: seq<Opt>, o: Opt, d: bool, junk: int)
    ensures Accepted(opts + [o], d, junk) <==>
            Accepted(opts, d, junk) && ArgOk(o, d, junk)
            && (o.tag == Type ==> CommitOk(Split(opts).segs, Split(opts).tail + [o], junk))
  {
    hide Split, ArgOk, CommitOk;
    var all := opts + [o];
    LastGood(opts, o, d, junk);
    forall k | 0 <= k < |opts| ensures GoodAt(all, k, d, junk) <==> GoodAt(opts, k, d, junk) {
      GoodInFront(opts, [o], k, d, junk);
    }
    hide GoodAt;
    if Accepted(all, d, junk) {
      assert GoodAt(all, |opts|, d, junk);
      forall k | 0 <= k < |opts| ensures GoodAt(opts, k, d, junk) { assert GoodAt(all, k, d, junk); }
    }
    if Accepted(opts, d, junk) && GoodAt(all, |opts|, d, junk) {
      forall k | 0 <= k < |all| ensures GoodAt(all, k, d, junk) {
        if k < |opts| { assert GoodAt(opts, k, d, junk); }
      }
    }
  }

  lemma LastGood(opts: seq<Opt>, o: Opt, d: bool, junk: int)
    ensures GoodAt(opts + [o], |opts|, d, junk) <==>
            ArgOk(o, d, junk) && (o.tag == Type ==> CommitOk(Split(opts).segs, Split(opts).tail + [o], junk))
  {
    hide Split, ArgOk, CommitOk;
    assert (opts + [o])[..|opts|] == opts;
  }

  lemma {:induction false} AcceptedTail(opts: seq<Opt>, tail: seq<Opt>, d: bool, junk: int)
    requires NoType(tail)
    ensures Accepted(opts + tail, d, junk) <==> Accepted(opts, d, junk) && ArgsOk(tail, d, junk)
  {
    hide Accepted, NoType, Split, ArgOk;
    if tail == [] {
      assert opts + tail == opts;
    } else {
      var front, o := tail[..|tail| - 1], tail[|tail| - 1];
      assert tail == front + [o];
      NoTypeSnoc(front, o);
      AcceptedTail(opts, front, d, junk);
      assert opts + tail == (opts + front) + [o];
      AcceptedSnoc(opts + front, o, d, junk);
      ArgsOkSnoc(front, o, d, junk);
    }
  }

  /** Each segment is fine by itself and can be stored after the ones before it. */
  ghost predicate Commits(segs: seq<seq<Opt>>, d: bool, junk: int) {
    segs == [] ||
    (var front, seg := segs[..|segs| - 1], segs[|segs| - 1];
     Commits(front, d, junk) && ArgsOk(seg, d, junk) && CommitOk(front, seg, junk))
  }

  lemma {:induction false} AcceptedSegments(segs: seq<seq<Opt>>, d: bool, junk: int)
    requires AllSegments(segs)
    ensures Accepted(Flatten(segs), d, junk) <==> Commits(segs, d, junk)
  {
    if segs != [] {
      SegmentParts(segs);
      var front, seg := segs[..|segs| - 1], segs[|segs| - 1];
      var body, o := seg[..|seg| - 1], seg[|seg| - 1];
      AcceptedSegments(front, d, junk);
      hide Accepted, NoType, Split, ArgOk, ArgsOk, CommitOk, Flatten, AllSegments;
      assert seg == body + [o];
      assert Flatten(segs) == (Flatten(front) + body) + [o];
      AcceptedSnoc(Flatten(front) + body, o, d, junk);
      AcceptedTail(Flatten(front), body, d, junk);
      SplitUnique(front, body);
      ArgsOkSnoc(body, o, d, junk);
    }
  }

  // ------------------------------------------------- stored profiles

  function NameOf(seg: seq<Opt>, junk: int): string {
    SegmentProfile(seg, junk).name
  }

  lemma {:induction false} StoredKeys(segs: seq<seq<Opt>>, junk: int)
    ensures forall n :: n in Stored(segs, junk) <==> exists i :: 0 <= i < |segs| && NameOf(segs[i], junk) == n
  {
    if segs != [] {
      var front, seg := segs[..|segs| - 1], segs[|segs| - 1];
      StoredKeys(front, junk);
      assert segs == front + [seg];
      forall n ensures n in Stored(segs, junk) <==> exists i :: 0 <= i < |segs| && NameOf(segs[i], junk) == n {
        if n in Stored(segs, junk) {
          if n == NameOf(seg, junk) {
            assert NameOf(segs[|segs| - 1], junk) == n;
          } else {
            assert n in Stored(front, junk);
            var i :| 0 <= i < |front| && NameOf(front[i], junk) == n;
            assert NameOf(segs[i], junk) == n;
          }
        }
        if i :| 0 <= i < |segs| && NameOf(segs[i], junk) == n {
          if i < |front| { assert NameOf(front[i], junk) == n; }
        }
      }
    }
  }

  /** No two segments have the same name. */
  ghost predicate Distinct(segs: seq<seq<Opt>>, junk: int) {
    forall i, j | 0 <= i < j < |segs| :: NameOf(segs[i], junk) != NameOf(segs[j], junk)
  }

  ghost predicate EachOk(segs: seq<seq<Opt>>, d: bool, junk: int) {
    forall s | s in segs :: ArgsOk(s, d, junk) && Complete(SegmentProfile(s, junk))
  }

  lemma {:induction false} CommitsIff(segs: seq<seq<Opt>>, d: bool, junk: int)
    ensures Commits(segs, d, junk) <==> EachOk(segs, d, junk) && Distinct(segs, junk)
  {
    hide ArgsOk, SegmentProfile, Complete;
    if segs != [] {
      var front, seg := segs[..|segs| - 1], segs[|segs| - 1];
      CommitsIff(front, d, junk);
      StoredKeys(front, junk);
      hide Stored;
      assert segs == front + [seg];
      EachOkSnoc(front, seg, d, junk);
      DistinctSnoc(front, seg, junk);
    }
  }

  lemma EachOkSnoc(front: seq<seq<Opt>>, seg: seq<Opt>, d: bool, junk: int)
    ensures EachOk(front + [seg], d, junk) <==>
            EachOk(front, d, junk) && ArgsOk(seg, d, junk) && Complete(SegmentProfile(seg, junk))
  {
    hide ArgsOk, SegmentProfile, Complete;
    assert forall s :: s in front + [seg] <==> s in front || s == seg;
  }

  lemma DistinctSnoc(front: seq<seq<Opt>>, seg: seq<Opt>, junk: int)
    ensures Distinct(front + [seg], junk) <==>
            Distinct(front, junk) && forall i | 0 <= i < |front| :: NameOf(front[i], junk) != NameOf(seg, junk)
  {
    hide SegmentProfile;
    var segs := front + [seg];
    if Distinct(segs, junk) {
      forall i, j | 0 <= i < j < |front| ensures NameOf(front[i], junk) != NameOf(front[j], junk) {
        assert segs[i] == front[i] && segs[j] == front[j];
      }
      forall i | 0 <= i < |front| ensures NameOf(front[i], junk) != NameOf(seg, junk) {
        assert segs[i] == front[i] && segs[|front|] == seg;
      }
    }
  }

  lemma {:induction false} StoredAt(segs: seq<seq<Opt>>, i: nat, junk: int)
    requires i < |segs| && Distinct(segs, junk)
    ensures NameOf(segs[i], junk) in Stored(segs, junk)
    ensures Stored(segs, junk)[NameOf(segs[i], junk)] == SegmentProfile(segs[i], junk)
  {
    hide SegmentProfile;
    var front := segs[..|segs| - 1];
    if i < |front| {
      assert segs == front + [segs[|segs| - 1]];
      DistinctSnoc(front, segs[|segs| - 1], junk);
      StoredAt(front, i, junk);
      NameOfIs(segs[|segs| - 1], junk);
    }
    NameOfIs(segs[i], junk);
  }

  lemma NameOfIs(seg: seq<Opt>, junk: int)
    ensures NameOf(seg, junk) == SegmentProfile(seg, junk).name
  {
  }

  // ------------------------------------------------- permutations

  lemma {:induction false} Twice<T>(s: seq<T>, i: nat, j: nat)
    requires i < j < |s| && s[i] == s[j]
    ensures multiset(s)[s[i]] >= 2
  {
    assert s == s[..j] + [s[j]] + s[j + 1..];
    assert s[..j][i] == s[i];
    assert s[i] in multiset(s[..j]);
  }

  lemma {:induction false} TwiceIndices<T>(s: seq<T>, x: T) returns (i: nat, j: nat)
    requires multiset(s)[x] >= 2
    ensures i < j < |s| && s[i] == s[j] == x
  {
    var front, last := s[..|s| - 1], s[|s| - 1];
    assert s == front + [last];
    if last == x {
      assert multiset(front)[x] >= 1;
      i :| 0 <= i < |front| && front[i] == x;
      j := |s| - 1;
    } else {
      i, j := TwiceIndices(front, x);
    }
  }

  lemma DistinctPermutes(segs: seq<seq<Opt>>, segs': seq<seq<Opt>>, junk: int)
    requires multiset(segs) == multiset(segs') && Distinct(segs, junk)
    ensures Distinct(segs', junk)
  {
    forall i, j | 0 <= i < j < |segs'| ensures NameOf(segs'[i], junk) != NameOf(segs'[j], junk) {
      var a, b := SamePlaces(segs, segs', i, j);
      if a < b {
        assert NameOf(segs[a], junk) != NameOf(segs[b], junk);
      } else {
        assert NameOf(segs[b], junk) != NameOf(segs[a], junk);
      }
    }
  }

  /** Two places of a permutation come from two places. */
  lemma SamePlaces<T>(s: seq<T>, t: seq<T>, i: nat, j: nat) returns (a: nat, b: nat)
    requires multiset(s) == multiset(t) && i < j < |t|
    ensures a < |s| && b < |s| && a != b && s[a] == t[i] && s[b] == t[j]
  {
    assert t[i] in multiset(t) && t[j] in multiset(t);
    if t[i] == t[j] {
      Twice(t, i, j);
      a, b := TwiceIndices(s, t[i]);
    } else {
      a :| 0 <= a < |s| && s[a] == t[i];
      b :| 0 <= b < |s| && s[b] == t[j];
    }
  }

  lemma EachOkPermutes(segs: seq<seq<Opt>>, segs': seq<seq<Opt>>, d: bool, junk: int)
    requires multiset(segs) == multiset(segs') && EachOk(segs, d, junk)
    ensures EachOk(segs', d, junk)
  {
    forall s | s in segs' ensures ArgsOk(s, d, junk) && Complete(SegmentProfile(s, junk)) {
      assert s in multiset(segs');
    }
  }

  lemma StoredPermutes(segs: seq<seq<Opt>>, segs': seq<seq<Opt>>, junk: int)
    requires multiset(segs) == multiset(segs') && Distinct(segs, junk) && Distinct(segs', junk)
    ensures forall n | n in Stored(segs, junk) ::
              n in Stored(segs', junk) && Stored(segs', junk)[n] == Stored(segs, junk)[n]
  {
    StoredKeys(segs, junk);
    forall n | n in Stored(segs, junk)
      ensures n in Stored(segs', junk) && Stored(segs', junk)[n] == Stored(segs, junk)[n]
    {
      var i :| 0 <= i < |segs| && NameOf(segs[i], junk) == n;
      assert segs[i] in multiset(segs);
      var j :| 0 <= j < |segs'| && segs'[j] == segs[i];
      StoredAt(segs, i, junk);
      StoredAt(segs', j, junk);
    }
  }

  /** Complete profile segments may be permuted: the stream is accepted exactly when it was, and
      stores the same profiles under the same names. */
  lemma SegmentOrderIrrelevant(segs: seq<seq<Opt>>, segs': seq<seq<Opt>>, tail: seq<Opt>, d: bool, junk: int)
    requires AllSegments(segs) && AllSegments(segs') && NoType(tail)
    requires multiset(segs) == multiset(segs')
    ensures var a, b := Flatten(segs) + tail, Flatten(segs') + tail;
            && (Accepted(a, d, junk) <==> Accepted(b, d, junk))
            && (Accepted(a, d, junk) ==> Stored(Split(a).segs, junk) == Stored(Split(b).segs, junk))
  {
    hide Accepted, AllSegments, NoType, Split, Flatten, Commits, EachOk, Distinct;
    SplitUnique(segs, tail);
    SplitUnique(segs', tail);
    AcceptedTail(Flatten(segs), tail, d, junk);
    AcceptedTail(Flatten(segs'), tail, d, junk);
    AcceptedSegments(segs, d, junk);
    AcceptedSegments(segs', d, junk);
    CommitsIff(segs, d, junk);
    CommitsIff(segs', d, junk);
    if Commits(segs, d, junk) {
      EachOkPermutes(segs, segs', d, junk);
      DistinctPermutes(segs, segs', junk);
      StoredPermutes(segs, segs', junk);
      StoredPermutes(segs', segs, junk);
    }
    if Commits(segs', d, junk) {
      EachOkPermutes(segs', segs, d, junk);
      DistinctPermutes(segs', segs, junk);
    }
  }

  // ------------------------------------------------- every reachable configuration

  /** Keys are the names of their profiles, and every profile can be served. */
  ghost predicate ProfilesOk(m: map<string, Profile>) {
    forall n | n in m :: m[n].name == n && Usable(m[n])
  }

  /** A field of a segment whose options are all fine is unset or in range. */
  lemma SegmentFieldsOk(seg: seq<Opt>, d: bool, junk: int)
    requires ArgsOk(seg, d, junk)
    ensures FieldsOk(SegmentProfile(seg, junk))
  {
    LastIsMember(seg, Width);
    LastIsMember(seg, Height);
    LastIsMember(seg, Type);
  }

  lemma {:induction false} LastIsMember(opts: seq<Opt>, tag: Tag)
    ensures LastArg(opts, tag).Some? ==> Opt(tag, LastArg(opts, tag).value) in opts
  {
    LastArgMeaning(opts, tag);
  }

  lemma {:induction false} CommittedOk(segs: seq<seq<Opt>>, d: bool, junk: int)
    requires Commits(segs, d, junk)
    ensures ProfilesOk(Stored(segs, junk))
  {
    if segs != [] {
      CommittedOk(segs[..|segs| - 1], d, junk);
      SegmentFieldsOk(segs[|segs| - 1], d, junk);
    }
  }

  /** Whatever stream is accepted: every stored profile has its own name as key, a name, a URL,
      sizes in [100, 10000) and one of the three encodings; the time zone format is a known one. */
  lemma AcceptedIsUsable(opts: seq<Opt>, d: bool, junk: int)
    requires Accepted(opts, d, junk)
    ensures ProfilesOk(Stored(Split(opts).segs, junk))
    ensures var stored := Stored(Split(opts).segs, junk);
            forall n | n in stored ::
              && n == stored[n].name != "" && stored[n].url != "" && 0 <= stored[n].kind <= 2
              && 100 <= stored[n].width < 10000 && 100 <= stored[n].height < 10000
    ensures TzOf(opts, junk) < 6
  {
    hide Accepted, Split, Flatten, AllSegments, NoType, Commits, Stored;
    var c := Split(opts);
    SplitJoins(opts);
    AcceptedTail(Flatten(c.segs), c.tail, d, junk);
    AcceptedSegments(c.segs, d, junk);
    CommittedOk(c.segs, d, junk);
    TzAccepted(opts, d, junk);
  }

  lemma TzAccepted(opts: seq<Opt>, d: bool, junk: int)
    requires Accepted(opts, d, junk)
    ensures TzOf(opts, junk) < TZ_CNT_FORMATS
  {
    hide Split, CommitOk, Args;
    LastArgMeaning(opts, TzFormat);
    if LastArg(opts, TzFormat).Some? {
      var i :| 0 <= i < |opts| && opts[i] == Opt(TzFormat, LastArg(opts, TzFormat).value);
      assert GoodAt(opts, i, d, junk);
    }
  }

  // ------------------------------------------------- blank numeric arguments aside, junk does not matter

  ghost predicate NumberGiven(o: Opt) {
    o.tag == Width || o.tag == Height || o.tag == TzFormat ==> ScanInteger(o.arg) != Blank
  }

  /** No numeric argument is blank. */
  ghost predicate NumbersGiven(opts: seq<Opt>) {
    forall o | o in opts :: NumberGiven(o)
  }

  lemma {:induction false} NumbersSplit(opts: seq<Opt>)
    requires NumbersGiven(opts)
    ensures NumbersGiven(Split(opts).tail) && forall s | s in Split(opts).segs :: NumbersGiven(s)
  {
    hide NumberGiven;
    if opts != [] {
      var front, o := opts[..|opts| - 1], opts[|opts| - 1];
      assert forall x | x in front :: x in opts;
      NumbersSplit(front);
    }
  }

  lemma ExtractJunkFree(text: string, j: int, k: int)
    requires ScanInteger(text) != Blank
    ensures ExtractInt(text, j) == ExtractInt(text, k)
    ensures ExtractUnsigned(text, Wrap(j)) == ExtractUnsigned(text, Wrap(k))
  {
    hide ScanInteger;
  }

  lemma LastJunkFree(opts: seq<Opt>, tag: Tag, j: int, k: int)
    requires NumbersGiven(opts) && (tag == Width || tag == Height || tag == TzFormat)
    ensures LastArg(opts, tag).Some? ==>
      var text := LastArg(opts, tag).value;
      && ExtractInt(text, j) == ExtractInt(text, k)
      && ExtractUnsigned(text, Wrap(j)) == ExtractUnsigned(text, Wrap(k))
  {
    hide ExtractInt, ExtractUnsigned, ScanInteger;
    LastIsMember(opts, tag);
    if LastArg(opts, tag).Some? {
      assert NumberGiven(Opt(tag, LastArg(opts, tag).value));
      ExtractJunkFree(LastArg(opts, tag).value, j, k);
    }
  }

  lemma SegmentJunkFree(seg: seq<Opt>, j: int, k: int)
    requires NumbersGiven(seg)
    ensures SegmentProfile(seg, j) == SegmentProfile(seg, k)
  {
    hide ExtractInt, LastArg, NumbersGiven, KindOf;
    LastJunkFree(seg, Width, j, k);
    LastJunkFree(seg, Height, j, k);
  }

  lemma {:induction false} StoredJunkFree(segs: seq<seq<Opt>>, j: int, k: int)
    requires forall s | s in segs :: NumbersGiven(s)
    ensures Stored(segs, j) == Stored(segs, k)
  {
    hide NumbersGiven, SegmentProfile;
    if segs != [] {
      StoredJunkFree(segs[..|segs| - 1], j, k);
      SegmentJunkFree(segs[|segs| - 1], j, k);
    }
  }

  lemma GoodJunkFree(opts: seq<Opt>, at: nat, d: bool, j: int, k: int)
    requires at < |opts| && NumbersGiven(opts)
    ensures GoodAt(opts, at, d, j) <==> GoodAt(opts, at, d, k)
  {
    var front, o := opts[..at], opts[at];
    assert NumberGiven(o);
    assert ArgOk(o, d, j) <==> ArgOk(o, d, k) by {
      hide ExtractInt, ExtractUnsigned, ScanInteger, KindOf;
      if o.tag == Width || o.tag == Height || o.tag == TzFormat { ExtractJunkFree(o.arg, j, k); }
    }
    hide ArgOk, NumberGiven, SegmentProfile, Stored, Split;
    assert NumbersGiven(front) by { assert forall x | x in front :: x in opts; }
    NumbersSplit(front);
    StoredJunkFree(Split(front).segs, j, k);
    assert o in opts;
    SegmentJunkFree(Split(front).tail + [o], j, k);
  }

  /** For streams without blank numeric arguments neither acceptance nor what is stored, nor the time
      zone format, depends on what the uninitialised locals hold. */
  lemma JunkFree(opts: seq<Opt>, d: bool, j: int, k: int)
    requires NumbersGiven(opts)
    ensures Accepted(opts, d, j) <==> Accepted(opts, d, k)
    ensures Stored(Split(opts).segs, j) == Stored(Split(opts).segs, k)
    ensures SegmentProfile(Split(opts).tail, j) == SegmentProfile(Split(opts).tail, k)
    ensures TzOf(opts, j) == TzOf(opts, k)
  {
    hide GoodAt, NumbersGiven, Split, Stored, SegmentProfile, LastArg, ExtractUnsigned;
    forall at | 0 <= at < |opts| ensures GoodAt(opts, at, d, j) <==> GoodAt(opts, at, d, k) {
      GoodJunkFree(opts, at, d, j, k);
    }
    NumbersSplit(opts);
    StoredJunkFree(Split(opts).segs, j, k);
    SegmentJunkFree(Split(opts).tail, j, k);
    LastJunkFree(opts, TzFormat, j, k);
  }
}
