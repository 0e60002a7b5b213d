/** ServiceContext and PTZNode of src/ServiceContext.cpp. */
module Context {
  import opened Text
  import opened Profiles
  import opened Options
  import opened OptionTheorems
  import opened Eth

  class PtzNode {
    var enable: bool
    var moveLeft: string
    var moveRight: string
    var moveUp: string
    var moveDown: string
    var moveStop: string
    var movePreset: string

    constructor ()
      ensures !enable && moveLeft == moveRight == moveUp == moveDown == moveStop == movePreset == ""
    {
      enable := false;
      moveLeft, moveRight, moveUp, moveDown, moveStop, movePreset := "", "", "", "", "", "";
    }
  }

  function PtzNow(n: PtzNode): PtzSettings
    reads n
  {
    PtzSettings(n.enable, n.moveLeft, n.moveRight, n.moveUp, n.moveDown, n.moveStop, n.movePreset)
  }

  class ServiceContext {
    var port: int
    var user: string
    var password: string
    var manufacturer: string
    var model: string
    var firmwareVersion: string
    var serialNumber: string
    var hardwareId: string
    var scopes: seq<string>
    const ethIfs: EthVector
    var profiles: map<string, Profile>
    const ptzNode: PtzNode
    var tzFormat: nat
    var strErr: string

    /** What every operation keeps. */
    ghost predicate Valid()
      reads this
    {
      ProfilesOk(profiles) && tzFormat < TZ_CNT_FORMATS
    }

    constructor ()
      ensures Valid() && profiles == map[] && scopes == [] && ethIfs.elems == [] && ethIfs.Valid()
      ensures port == 1000 && user == "admin" && password == "admin" && tzFormat == 0
      ensures manufacturer == "Manufacturer" && model == "Model" && firmwareVersion == "FirmwareVersion"
      ensures serialNumber == "SerialNumber" && hardwareId == "HardwareId"
      ensures fresh(ethIfs) && fresh(ptzNode)
      ensures !ptzNode.enable && ptzNode.moveLeft == ptzNode.moveRight == ptzNode.moveUp == ptzNode.moveDown == ""
      ensures ptzNode.moveStop == ptzNode.movePreset == ""
    {
      port, user, password := 1000, "admin", "admin";
      manufacturer, model, firmwareVersion := "Manufacturer", "Model", "FirmwareVersion";
      serialNumber, hardwareId := "SerialNumber", "HardwareId";
      scopes, profiles, tzFormat, strErr := [], map[], 0, "";
      ethIfs := new EthVector();
      ptzNode := new PtzNode();
    }

    method SetTzFormat(newVal: string, junk: nat) returns (ok: bool)
      modifies this`tzFormat, this`strErr
      ensures ok <==> ExtractUnsigned(newVal, junk) < 6
      ensures tzFormat == if ok then ExtractUnsigned(newVal, junk) else old(tzFormat)
    {
      var tmp := ExtractUnsigned(newVal, junk);
      if tmp >= TZ_CNT_FORMATS {
        strErr := "tz_format is not supported";
        return false;
      }
      tzFormat := tmp;
      ok := true;
    }

    /** A complete profile with a new name is stored by value; anything else changes nothing. */
    method AddProfile(profile: StreamProfile) returns (ok: bool)
      modifies this`profiles, this`strErr
      ensures old(Valid()) && FieldsOk(profile.Value()) ==> Valid()
      ensures ok <==> Complete(profile.Value()) && profile.name !in old(profiles)
      ensures ok <==>
        && profile.name != "" && profile.url != "" && profile.width != -1 && profile.height != -1
        && profile.kind != -1 && profile.name !in old(profiles)
      ensures profiles == if ok then old(profiles)[profile.name := profile.Value()] else old(profiles)
    {
      var valid := profile.IsValid();
      if !valid {
        strErr := "profile has unset parameters";
        return false;
      }
      if profile.name in profiles {
        strErr := "profile: " + profile.name + " already exist";
        return false;
      }
      profiles := profiles[profile.name := profile.Value()];
      ok := true;
    }
  }
}
