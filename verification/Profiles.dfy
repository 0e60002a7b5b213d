/** StreamProfile of src/ServiceContext.cpp: the scratch record that command-line options fill. */
module Profiles {
  import opened Wrappers
  import opened Text

  // tt__VideoEncoding, numbered in the order of the schema; -1 stands for unset
  const JPEG := 0
  const MPEG4 := 1
  const H264 := 2

  /** The value of a StreamProfile (its error text aside). */
  datatype Profile = Profile(name: string, width: int, height: int, url: string, snapurl: string, kind: int)

  const CLEARED := Profile("", -1, -1, "", "", -1)

  /** is_valid */
  predicate Complete(p: Profile) {
    p.name != [] && p.url != [] && p.width != -1 && p.height != -1 && p.kind != -1
  }

  predicate SizeOk(n: int) {
    100 <= n < 10000
  }

  predicate KindOk(k: int) {
    k == JPEG || k == MPEG4 || k == H264
  }

  /** What the setters let into a field: unset, or a value in range. */
  ghost predicate FieldsOk(p: Profile) {
    (p.width == -1 || SizeOk(p.width)) && (p.height == -1 || SizeOk(p.height)) && (p.kind == -1 || KindOk(p.kind))
  }

  /** A profile that the media handlers may rely on. */
  ghost predicate Usable(p: Profile) {
    p.name != [] && p.url != [] && SizeOk(p.width) && SizeOk(p.height) && KindOk(p.kind)
  }

  function KindOf(text: string): int {
    if text == "JPEG" then JPEG
    else if text == "MPEG4" then MPEG4
    else if text == "H264" then H264
    else -1
  }

  class StreamProfile {
    var name: string
    var width: int
    var height: int
    var url: string
    var snapurl: string
    var kind: int
    var strErr: string

    function Value(): Profile
      reads this
    {
      Profile(name, width, height, url, snapurl, kind)
    }

    constructor ()
      ensures Value() == CLEARED
    {
      name, width, height, url, snapurl, kind, strErr := "", -1, -1, "", "", -1, "";
    }

    method Clear()
      modifies this
      ensures Value() == CLEARED
    {
      name, url, snapurl := "", "", "";
      width, height, kind := -1, -1, -1;
    }

    method IsValid() returns (r: bool)
      ensures r <==> Complete(Value())
      ensures r <==> name != "" && url != "" && width != -1 && height != -1 && kind != -1
      ensures FieldsOk(Value()) ==> (r <==> Usable(Value()))
    {
      r := name != "" && url != "" && width != -1 && height != -1 && kind != -1;
    }

    method SetName(newVal: Option<string>) returns (ok: bool)
      modifies this
      ensures ok <==> newVal.Some?
      ensures Value() == if ok then old(Value()).(name := newVal.value) else old(Value())
    {
      if newVal == None {
        strErr := "Name is empty";
        return false;
      }
      name := newVal.value;
      ok := true;
    }

    method SetWidth(newVal: string, junk: int) returns (ok: bool)
      modifies this
      ensures ok <==> 100 <= ExtractInt(newVal, junk) < 10000
      ensures Value() == if ok then old(Value()).(width := ExtractInt(newVal, junk)) else old(Value())
    {
      var tmp := ExtractInt(newVal, junk);
      if tmp < 100 || tmp >= 10000 {
        strErr := "width is bad, correct range: 100-10000";
        return false;
      }
      width := tmp;
      ok := true;
    }

    method SetHeight(newVal: string, junk: int) returns (ok: bool)
      modifies this
      ensures ok <==> 100 <= ExtractInt(newVal, junk) < 10000
      ensures Value() == if ok then old(Value()).(height := ExtractInt(newVal, junk)) else old(Value())
    {
      var tmp := ExtractInt(newVal, junk);
      if tmp < 100 || tmp >= 10000 {
        strErr := "height is bad, correct range: 100-10000";
        return false;
      }
      height := tmp;
      ok := true;
    }

    method SetUrl(newVal: Option<string>) returns (ok: bool)
      modifies this
      ensures ok <==> newVal.Some?
      ensures Value() == if ok then old(Value()).(url := newVal.value) else old(Value())
    {
      if newVal == None {
        strErr := "URL is empty";
        return false;
      }
      url := newVal.value;
      ok := true;
    }

    method SetSnapurl(newVal: Option<string>) returns (ok: bool)
      modifies this
      ensures ok <==> newVal.Some?
      ensures Value() == if ok then old(Value()).(snapurl := newVal.value) else old(Value())
    {
      if newVal == None {
        strErr := "URL is empty";
        return false;
      }
      snapurl := newVal.value;
      ok := true;
    }

    method SetType(newVal: string) returns (ok: bool)
      modifies this
      ensures ok <==> newVal == "JPEG" || newVal == "MPEG4" || newVal == "H264"
      ensures ok <==> KindOk(KindOf(newVal))
      ensures Value() == old(Value()).(kind := kind)
      ensures newVal == "JPEG" ==> kind == 0
      ensures newVal == "MPEG4" ==> kind == 1
      ensures newVal == "H264" ==> kind == 2
      ensures kind == if ok then KindOf(newVal) else old(kind)
    {
      if newVal == "JPEG" {
        kind := JPEG;
      } else if newVal == "MPEG4" {
        kind := MPEG4;
      } else if newVal == "H264" {
        kind := H264;
      } else {
        strErr := "type dont support";
        return false;
      }
      ok := true;
    }
  }
}
