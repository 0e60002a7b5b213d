/** DeviceBindingService::GetCapabilities of src/ServiceDevice.cpp. */
module Capabilities {
  import opened Wrappers

  // tt__CapabilityCategory
  datatype Category = All | Analytics | Device | Events | Imaging | Media | PTZ

  /** The sections of the response that the loop may fill, each with its address. */
  datatype Sections = Sections(
    device: Option<string>, media: Option<string>, ptz: Option<string>, events: Option<string>)

  const NONE := Sections(None, None, None, None)

  /** The request record, whose list of categories the handler may append to. */
  class GetCapabilitiesRequest {
    var category: seq<Category>

    constructor (category: seq<Category>)
      ensures this.category == category
    {
      this.category := category;
    }
  }

  /** What a set of categories asks for: every section that All or its own category names, and the
      PTZ section only when PTZ is enabled. */
  function Asked(categories: set<Category>, xAddr: string, ptzEnabled: bool): Sections {
    Sections(
      if All in categories || Device in categories then Some(xAddr) else None,
      if All in categories || Media in categories then Some(xAddr) else None,
      if (All in categories || PTZ in categories) && ptzEnabled then Some(xAddr) else None,
      if All in categories || Events in categories then Some(xAddr) else None)
  }

  function Members(s: seq<Category>): set<Category> {
    set c | c in s
  }

  /** The categories of a request; none at all means All. */
  function Effective(s: seq<Category>): set<Category> {
    if s == [] then {All} else Members(s)
  }

  /** The overwriting loop: each section is there, with the address of the service, exactly when the list
      is empty or holds All or its own category (and PTZ is enabled for its section). So the answer
      depends on the set of requested categories only. */
  method GetCapabilities(request: GetCapabilitiesRequest, xAddr: string, ptzEnabled: bool) returns (r: Sections)
    modifies request
    ensures r == Asked(Effective(old(request.category)), xAddr, ptzEnabled)
    ensures var asked := old(request.category);
            var all := asked == [] || All in asked;
            && r.device == (if all || Device in asked then Some(xAddr) else None)
            && r.media == (if all || Media in asked then Some(xAddr) else None)
            && r.events == (if all || Events in asked then Some(xAddr) else None)
            && r.ptz == (if ptzEnabled && (all || PTZ in asked) then Some(xAddr) else None)
    ensures request.category == if old(request.category) == [] then [All] else old(request.category)
  {
    if request.category == [] {
      request.category := request.category + [All];
    }
    ghost var list := request.category;
    assert Effective(old(request.category)) == Members(list);
    r := NONE;
    var i := 0;
    while i < |request.category|
      invariant i <= |request.category| && request.category == list
      invariant r == Asked(Members(request.category[..i]), xAddr, ptzEnabled)
    {
      var category := request.category[i];
      if category == All || category == Device {
        r := r.(device := Some(xAddr));
      }
      if category == All || category == Media {
        r := r.(media := Some(xAddr));
      }
      if category == All || category == PTZ {
        r := r.(ptz := if ptzEnabled then Some(xAddr) else None);
      }
      if category == All || category == Events {
        r := r.(events := Some(xAddr));
      }
      MembersGrow(request.category, i);
      i := i + 1;
    }
    assert request.category[..|request.category|] == request.category;
  }

  lemma MembersGrow(s: seq<Category>, i: nat)
    requires i < |s|
    ensures Members(s[..i + 1]) == Members(s[..i]) + {s[i]}
  {
    assert s[..i + 1] == s[..i] + [s[i]];
  }

  /** Reordering and repeating categories changes nothing, an empty list is the list [All], and the
      PTZ section is there exactly when it is asked for and enabled. */
  lemma OnlyTheSetMatters(s: seq<Category>, t: seq<Category>, xAddr: string, ptzEnabled: bool)
    ensures s != [] && t != [] && (forall c :: c in s <==> c in t) ==>
      Asked(Effective(s), xAddr, ptzEnabled) == Asked(Effective(t), xAddr, ptzEnabled)
    ensures multiset(s) == multiset(t) ==>
      Asked(Effective(s), xAddr, ptzEnabled) == Asked(Effective(t), xAddr, ptzEnabled)
    ensures Asked(Effective([]), xAddr, ptzEnabled) == Asked(Effective([All]), xAddr, ptzEnabled)
    ensures Asked(Effective(s), xAddr, ptzEnabled).ptz.Some? <==>
      ptzEnabled && (s == [] || All in s || PTZ in s)
  {
    assert Members([All]) == {All};
    if forall c :: c in s <==> c in t {
      assert Members(s) == Members(t);
    }
    if multiset(s) == multiset(t) {
      forall c ensures c in s <==> c in t {
        assert c in s <==> c in multiset(s);
        assert c in t <==> c in multiset(t);
      }
      assert |multiset(s)| == |s| && |multiset(t)| == |t|;
      assert Members(s) == Members(t);
    }
  }
}
