/** The code-to-label lookups of the report views: vehicle class labels and
    the views' lane label table. Unmapped codes fall back to a label built
    from the code itself, so no code is ever dropped. */
module Labels {
  import opened Basics
  import opened Text

  /** The fixed vehicle class table: `vehicle_types.get(code)`. */
  function VehicleType(code: string): Option<string> {
    match code
    case "1" => Some("Motorcycle")
    case "2" => Some("Car/Jeep")
    case "3" => Some("Small Truck")
    case "4" => Some("Medium Truck")
    case "5" => Some("Large Truck")
    case "6" => Some("Bus")
    case "7" => Some("Large Bus")
    case "8" => Some("Trailer")
    case "9" => Some("Multi-Axle")
    case "10" => Some("Special Vehicle")
    case "0" => Some("Violation")
    case _ => None
  }

  /** The views' lane table (E101 is the emergency lane here). */
  function ViewLaneName(code: string): Option<string> {
    match code
    case "E101" => Some("Emergency Lane")
    case "L101" => Some("Lane 1")
    case "L102" => Some("Lane 2")
    case "L103" => Some("Lane 3")
    case "L104" => Some("Lane 4")
    case "L105" => Some("Lane 5")
    case "L106" => Some("Lane 6")
    case "L107" => Some("Lane 7")
    case "L108" => Some("Lane 8")
    case "L109" => Some("Lane 9")
    case "L110" => Some("Lane 10")
    case "L112" => Some("Lane 12")
    case _ => None
  }

  /** Python's `f"{x}"` for a possibly-absent string. */
  function Show(x: Option<string>): string {
    match x
    case Some(s) => s
    case None => "None"
  }

  /** `vehicle_types.get(code, f"Class {code}")` */
  function VehicleClassDisplay(code: Option<string>): (shown: string)
    ensures code.Some? && VehicleType(code.value).Some? ==> shown == VehicleType(code.value).value
    ensures !(code.Some? && VehicleType(code.value).Some?) ==> shown == "Class " + Show(code)
  {
    if code.Some? && VehicleType(code.value).Some? then VehicleType(code.value).value
    else "Class " + Show(code)
  }

  /** `lane_names.get(code, code or 'Unknown Lane')` for a lane table given
      as its lookup result `named`. */
  function LaneLabel(named: Option<string>, code: Option<string>): (shown: string)
  {
    if named.Some? then named.value
    else if code == None || code == Some("") then "Unknown Lane"
    else code.value
  }

  /** The views' `get_lane_display`. */
  function LaneDisplay(code: Option<string>): (shown: string)
    ensures code.Some? && ViewLaneName(code.value).Some? ==> shown == ViewLaneName(code.value).value
    ensures code == None || code == Some("") ==> shown == "Unknown Lane"
    ensures code.Some? && ViewLaneName(code.value).None? && code.value != "" ==> shown == code.value
  {
    LaneLabel(if code.Some? then ViewLaneName(code.value) else None, code)
  }

  predicate IsFallback(s: string) {
    |s| >= 6 && s[..6] == "Class "
  }

  lemma FixedLabelNotFallback(code: string)
    requires VehicleType(code).Some?
    ensures !IsFallback(VehicleType(code).value)
  {
    var v := VehicleType(code).value;
    assert v in {"Motorcycle", "Car/Jeep", "Small Truck", "Medium Truck", "Large Truck", "Bus",
                 "Large Bus", "Trailer", "Multi-Axle", "Special Vehicle", "Violation"};
    assert v[0] != 'C' || v[1] != 'l';
  }

  /** Different present class codes never share a label: an unmapped code is
      shown as "Class <code>", which no fixed label and no other code yields. */
  lemma VehicleClassDisplayInjective(a: string, b: string)
    requires a != b
    ensures VehicleClassDisplay(Some(a)) != VehicleClassDisplay(Some(b))
  {
    var la, lb := VehicleClassDisplay(Some(a)), VehicleClassDisplay(Some(b));
    if VehicleType(a).Some? && VehicleType(b).Some? {
      assert la != lb;
    } else if VehicleType(a).None? && VehicleType(b).None? {
      assert la[6..] == a && lb[6..] == b;
    } else if VehicleType(a).None? {
      FixedLabelNotFallback(b);
      assert IsFallback(la) && !IsFallback(lb);
    } else if VehicleType(b).None? {
      FixedLabelNotFallback(a);
      assert IsFallback(lb) && !IsFallback(la);
    }
  }
}
