/**
 Attribute maps as they leave the language model: clean-up in place, then
 validation, which itself writes the normalised condition back.
 */
module Attributes {
  import opened Wrappers
  import Like

  /** A decoded attribute: null, an int, a float64 (as an exact real), a string, or any other value. */
  datatype Value = Null | Whole(n: int) | Number(x: real) | Text(s: string) | Other

  type Attrs = map<string, Value>

  datatype Kind = Ram | Drive | Server | Cpu | Nic | OtherKind

  const MIN_SPEED := 800
  const MAX_SPEED := 8400

  type Speed = n: int | MIN_SPEED <= n <= MAX_SPEED witness MIN_SPEED

  /** What the title classifiers read off a title: a memory speed, if any, and a server tier. */
  datatype Title = Title(speed: Option<Speed>, tier: string)

  datatype Error = MissingField(key: string) | OutOfRange(key: string) | InvalidEnum(key: string)

  datatype Outcome = Outcome(attrs: Attrs, error: Option<Error>)

  // ----------------------------------------------------------------- readers

  /** Conversion to int drops the fraction, on either side of zero. */
  function Truncate(x: real): int {
    if x >= 0.0 then x.Floor else -((-x).Floor)
  }

  function AttrString(m: Attrs, key: string): Option<string> {
    if key in m && m[key].Text? then Some(m[key].s) else None
  }

  function AttrInt(m: Attrs, key: string): Option<int> {
    if key !in m then None
    else match m[key]
      case Whole(n) => Some(n)
      case Number(x) => Some(Truncate(x))
      case _ => None
  }

  function AttrFloat(m: Attrs, key: string): Option<real> {
    if key !in m then None
    else match m[key]
      case Whole(n) => Some(n as real)
      case Number(x) => Some(x)
      case _ => None
  }

  // ----------------------------------------------------------------- folding

  predicate IsSpace(c: char) {
    '\t' <= c <= '\r' || c == ' '
  }

  function TrimLeft(s: string): string {
    if s != [] && IsSpace(s[0]) then TrimLeft(s[1..]) else s
  }

  function TrimRight(s: string): string {
    if s != [] && IsSpace(s[|s| - 1]) then TrimRight(s[..|s| - 1]) else s
  }

  function Fold(s: string): string {
    Like.Lower(TrimRight(TrimLeft(s)))
  }

  const PLACEHOLDERS := ["n/a", "na", "unknown", "none", "null", "not specified", "not applicable"]
  const OPTIONAL_ENUMS := ["form_factor", "type", "interface", "port_type"]
  const CONDITIONS := ["new", "like_new", "used_working", "for_parts", "unknown"]

  function Lookup(folded: string): (c: string)
    ensures c in CONDITIONS
  {
    match folded
    case "new" => "new"
    case "like_new" => "like_new"
    case "used_working" => "used_working"
    case "for_parts" => "for_parts"
    case "brand new" => "new"
    case "factory sealed" => "new"
    case "open box" => "like_new"
    case "manufacturer refurbished" => "like_new"
    case "used" => "used_working"
    case "pre-owned" => "used_working"
    case "seller refurbished" => "used_working"
    case "pulled from working" => "used_working"
    case "tested working" => "used_working"
    case "for parts" => "for_parts"
    case "not working" => "for_parts"
    case "parts only" => "for_parts"
    case "as-is" => "for_parts"
    case _ => "unknown"
  }

  function NormalizeCondition(raw: string): (c: string)
    ensures c in CONDITIONS
  {
    Lookup(Fold(raw))
  }

  // ----------------------------------------------------------- normalisation

  predicate IsPlaceholder(m: Attrs, key: string) {
    var s := AttrString(m, key);
    s.Some? && Fold(s.value) in PLACEHOLDERS
  }

  function Stripped(m: Attrs, keys: seq<string>): Attrs {
    m - (set key | key in keys && IsPlaceholder(m, key))
  }

  function WithConfidence(m: Attrs): Attrs {
    if "confidence" in m then m else m["confidence" := Number(0.5)]
  }

  predicate Divides(divisor: nat, capacity: int)
    requires divisor > 0
  {
    capacity % divisor == 0 && 1 <= capacity / divisor <= 1024
  }

  function Gigabytes(capacity: int): int {
    if capacity <= 1024 then capacity
    else if Divides(1024, capacity) then capacity / 1024
    else if Divides(1000, capacity) then capacity / 1000
    else capacity
  }

  function WithCapacity(m: Attrs): Attrs {
    var capacity := AttrInt(m, "capacity_gb");
    if capacity.None? || Gigabytes(capacity.value) == capacity.value then m
    else m["capacity_gb" := Whole(Gigabytes(capacity.value))]
  }

  function CurrentSpeed(m: Attrs): Option<int> {
    var speed := AttrInt(m, "speed_mhz");
    if speed == Some(0) then None else speed
  }

  predicate SpeedInRange(speed: int) {
    MIN_SPEED <= speed <= MAX_SPEED
  }

  function WithSpeed(t: Title, m: Attrs): Attrs {
    var current := CurrentSpeed(m);
    if current.Some? && SpeedInRange(current.value) then m
    else if t.speed.Some? then m["speed_mhz" := Whole(t.speed.value)]
    else m - {"speed_mhz"}
  }

  function Normalized(kind: Kind, t: Title, m: Attrs): Attrs {
    var clean := WithConfidence(Stripped(m, OPTIONAL_ENUMS));
    match kind
    case Ram => WithSpeed(t, WithCapacity(clean))
    case Server => clean["tier" := Text(t.tier)]
    case _ => clean
  }

  /** A number that is a speed once its fraction is dropped. */
  predicate IsSpeed(v: Value) {
    match v
    case Whole(n) => 800 <= n <= 8400
    case Number(x) => 800.0 <= x < 8401.0
    case _ => false
  }

  /** Only the speed may differ: a plausible one is kept, any other becomes the title's, or goes if the title
      has none. */
  predicate SpeedSettled(t: Title, m: Attrs, out: Attrs) {
    && out - {"speed_mhz"} == m - {"speed_mhz"}
    && if "speed_mhz" in m && IsSpeed(m["speed_mhz"]) then out == m
       else if t.speed.Some? then "speed_mhz" in out && out["speed_mhz"] == Whole(t.speed.value)
       else "speed_mhz" !in out
  }

  lemma SpeedIsSettled(t: Title, m: Attrs)
    ensures SpeedSettled(t, m, WithSpeed(t, m))
  {
  }

  // -------------------------------------------------------------- validation

  function CommonChecked(m: Attrs): Outcome {
    var condition := AttrString(m, "condition");
    if condition.None? then Outcome(m, Some(MissingField("condition")))
    else
      var out := m["condition" := Text(NormalizeCondition(condition.value))];
      var confidence := AttrFloat(out, "confidence");
      var quantity := AttrInt(out, "quantity");
      if confidence.None? then Outcome(out, Some(MissingField("confidence")))
      else if confidence.value < 0.0 || confidence.value > 1.0 then Outcome(out, Some(OutOfRange("confidence")))
      else if quantity.Some? && quantity.value < 1 then Outcome(out, Some(OutOfRange("quantity")))
      else Outcome(out, None)
  }

  function RequiredEnum(m: Attrs, key: string, values: seq<string>): Option<Error> {
    var s := AttrString(m, key);
    if s.None? then Some(MissingField(key))
    else if s.value !in values then Some(InvalidEnum(key))
    else None
  }

  function OptionalEnum(m: Attrs, key: string, values: seq<string>): Option<Error> {
    var s := AttrString(m, key);
    if s.Some? && s.value !in values then Some(InvalidEnum(key)) else None
  }

  function RequiredText(m: Attrs, key: string): Option<Error> {
    var s := AttrString(m, key);
    if s.None? || s.value == "" then Some(MissingField(key)) else None
  }

  function RequiredInt(m: Attrs, key: string, lo: int, hi: int): Option<Error> {
    var n := AttrInt(m, key);
    if n.None? then Some(MissingField(key))
    else if n.value < lo || n.value > hi then Some(OutOfRange(key))
    else None
  }

  function OptionalInt(m: Attrs, key: string, lo: int, hi: int): Option<Error> {
    var n := AttrInt(m, key);
    if n.Some? && (n.value < lo || n.value > hi) then Some(OutOfRange(key)) else None
  }

  function OptionalFloat(m: Attrs, key: string, lo: real, hi: real): Option<Error> {
    var x := AttrFloat(m, key);
    if x.Some? && (x.value < lo || x.value > hi) then Some(OutOfRange(key)) else None
  }

  function First(a: Option<Error>, b: Option<Error>): Option<Error> {
    if a.Some? then a else b
  }

  const GENERATIONS := ["DDR3", "DDR4", "DDR5"]
  const DRIVE_INTERFACES := ["SAS", "SATA", "NVMe", "U.2"]
  const DRIVE_FORM_FACTORS := ["2.5", "3.5"]
  const DRIVE_TYPES := ["SSD", "HDD"]
  const SERVER_FORM_FACTORS := ["1U", "2U", "3U", "4U", "5U", "6U", "7U", "8U", "10U", "tower"]
  const CPU_MANUFACTURERS := ["Intel", "AMD"]
  const CPU_FAMILIES := ["Xeon", "EPYC"]
  const NIC_SPEEDS := ["1GbE", "10GbE", "25GbE", "40GbE", "100GbE"]
  const NIC_PORT_TYPES := ["SFP+", "SFP28", "QSFP+", "QSFP28", "RJ45", "BaseT"]

  function KindError(kind: Kind, m: Attrs): Option<Error> {
    match kind
    case Ram =>
      First(RequiredInt(m, "capacity_gb", 1, 1024),
      First(RequiredEnum(m, "generation", GENERATIONS),
            OptionalInt(m, "speed_mhz", MIN_SPEED, MAX_SPEED)))
    case Drive =>
      First(RequiredText(m, "capacity"),
      First(RequiredEnum(m, "interface", DRIVE_INTERFACES),
      First(OptionalEnum(m, "form_factor", DRIVE_FORM_FACTORS),
            OptionalEnum(m, "type", DRIVE_TYPES))))
    case Server =>
      First(RequiredText(m, "manufacturer"),
      First(RequiredText(m, "model"),
            OptionalEnum(m, "form_factor", SERVER_FORM_FACTORS)))
    case Cpu =>
      First(RequiredEnum(m, "manufacturer", CPU_MANUFACTURERS),
      First(RequiredEnum(m, "family", CPU_FAMILIES),
      First(RequiredText(m, "model"),
      First(OptionalInt(m, "cores", 1, 256),
      First(OptionalFloat(m, "base_clock_ghz", 0.5, 6.0),
            OptionalInt(m, "tdp_watts", 10, 500))))))
    case Nic =>
      First(RequiredEnum(m, "speed", NIC_SPEEDS),
      First(RequiredInt(m, "port_count", 1, 8),
            OptionalEnum(m, "port_type", NIC_PORT_TYPES)))
    case OtherKind => None
  }

  function Validated(kind: Kind, m: Attrs): Outcome {
    var common := CommonChecked(m);
    if common.error.Some? then common else Outcome(common.attrs, KindError(kind, common.attrs))
  }

  function Processed(kind: Kind, t: Title, m: Attrs): Outcome {
    Validated(kind, Normalized(kind, t, m))
  }

  // -------------------------------------------------------- the map in place

  class AttributeMap {
    var attrs: Attrs

    constructor (decoded: Attrs)
      ensures attrs == decoded
    {
      attrs := decoded;
    }

    method StripPlaceholderEnums()
      modifies this
      ensures attrs == Stripped(old(attrs), OPTIONAL_ENUMS)
    {
      for i := 0 to |OPTIONAL_ENUMS|
        invariant attrs == Stripped(old(attrs), OPTIONAL_ENUMS[..i])
      {
        var key := OPTIONAL_ENUMS[i];
        var s := AttrString(attrs, key);
        if s.Some? && Fold(s.value) in PLACEHOLDERS {
          attrs := attrs - {key};
        }
        StripOne(old(attrs), OPTIONAL_ENUMS[..i], key);
        assert OPTIONAL_ENUMS[..i + 1] == OPTIONAL_ENUMS[..i] + [key];
      }
      assert OPTIONAL_ENUMS[..|OPTIONAL_ENUMS|] == OPTIONAL_ENUMS;
    }

    method DefaultConfidence()
      modifies this
      ensures attrs == WithConfidence(old(attrs))
      ensures attrs == if "confidence" in old(attrs) then old(attrs) else old(attrs)["confidence" := Number(0.5)]
    {
      if "confidence" !in attrs {
        attrs := attrs["confidence" := Number(0.5)];
      }
    }

    method NormalizeCapacityGB()
      modifies this
      ensures attrs == WithCapacity(old(attrs))
      ensures attrs - {"capacity_gb"} == old(attrs) - {"capacity_gb"}
      ensures AttrInt(old(attrs), "capacity_gb").Some? ==>
                var n := AttrInt(old(attrs), "capacity_gb").value;
                if n > 1024 && n % 1024 == 0 && n / 1024 <= 1024 then attrs["capacity_gb"] == Whole(n / 1024)
                else if n > 1024 && n % 1000 == 0 && n / 1000 <= 1024 then attrs["capacity_gb"] == Whole(n / 1000)
                else attrs == old(attrs)
    {
      var capacity := AttrInt(attrs, "capacity_gb");
      if capacity.None? || capacity.value <= 1024 {
        return;
      }
      var divisors := [1024, 1000];
      for i := 0 to |divisors|
        invariant attrs == old(attrs)
        invariant forall j :: 0 <= j < i ==> !Divides(divisors[j], capacity.value)
      {
        if capacity.value % divisors[i] == 0 {
          var candidate := capacity.value / divisors[i];
          if candidate >= 1 && candidate <= 1024 {
            attrs := attrs["capacity_gb" := Whole(candidate)];
            assert i == 1 ==> !Divides(divisors[0], capacity.value);
            return;
          }
        }
      }
      assert !Divides(divisors[0], capacity.value) && !Divides(divisors[1], capacity.value);
    }

    method NormalizeRAMSpeed(t: Title) returns (known: bool)
      modifies this
      ensures attrs == WithSpeed(t, old(attrs))
      ensures SpeedSettled(t, old(attrs), attrs)
      ensures known == ("speed_mhz" in attrs)
    {
      SpeedIsSettled(t, attrs);
      var current := CurrentSpeed(attrs);
      if current.Some? && SpeedInRange(current.value) {
        return true;
      }
      if t.speed.Some? {
        attrs := attrs["speed_mhz" := Whole(t.speed.value)];
        return true;
      }
      attrs := attrs - {"speed_mhz"};
      known := false;
    }

    method NormalizeExtraction(kind: Kind, t: Title)
      modifies this
      ensures attrs == Normalized(kind, t, old(attrs))
    {
      StripPlaceholderEnums();
      DefaultConfidence();
      if kind == Ram {
        NormalizeCapacityGB();
        var _ := NormalizeRAMSpeed(t);
      }
      if kind == Server {
        attrs := attrs["tier" := Text(t.tier)];
      }
    }

    method ValidateCommon() returns (error: Option<Error>)
      modifies this
      ensures Outcome(attrs, error) == CommonChecked(old(attrs))
    {
      var condition := AttrString(attrs, "condition");
      if condition.None? {
        return Some(MissingField("condition"));
      }
      attrs := attrs["condition" := Text(NormalizeCondition(condition.value))];
      var confidence := AttrFloat(attrs, "confidence");
      if confidence.None? {
        return Some(MissingField("confidence"));
      }
      if confidence.value < 0.0 || confidence.value > 1.0 {
        return Some(OutOfRange("confidence"));
      }
      var quantity := AttrInt(attrs, "quantity");
      if quantity.Some? && quantity.value < 1 {
        return Some(OutOfRange("quantity"));
      }
      error := None;
    }

    method ValidateExtraction(kind: Kind) returns (error: Option<Error>)
      modifies this
      ensures Outcome(attrs, error) == Validated(kind, old(attrs))
    {
      error := ValidateCommon();
      if error.None? {
        error := KindError(kind, attrs);
      }
    }

    method NormalizeThenValidate(kind: Kind, t: Title) returns (error: Option<Error>)
      modifies this
      ensures Outcome(attrs, error) == Processed(kind, t, old(attrs))
    {
      NormalizeExtraction(kind, t);
      error := ValidateExtraction(kind);
    }
  }

  lemma StripOne(m: Attrs, done: seq<string>, key: string)
    ensures Stripped(m, done + [key])
         == if IsPlaceholder(Stripped(m, done), key) then Stripped(m, done) - {key} else Stripped(m, done)
  {
    var next, now := Stripped(m, done + [key]), Stripped(m, done);
    assert IsPlaceholder(now, key) ==> IsPlaceholder(m, key);
    assert IsPlaceholder(m, key) && !IsPlaceholder(now, key) ==> key !in now;
  }

  // ------------------------------------------------------------- idempotence

  predicate Folded(s: string) {
    && (forall i :: 0 <= i < |s| ==> !('A' <= s[i] <= 'Z'))
    && (s == [] || (!IsSpace(s[0]) && !IsSpace(s[|s| - 1])))
  }

  lemma FoldKeepsFolded(s: string)
    requires Folded(s)
    ensures Fold(s) == s
  {
    assert TrimRight(TrimLeft(s)) == s;
    assert Like.Lower(s) == s;
  }

  lemma CanonicalIsKept(c: string)
    requires c in CONDITIONS
    ensures Lookup(c) == c
  {
  }

  lemma CanonicalIsFolded(c: string)
    requires c in CONDITIONS
    ensures Folded(c)
  {
    assert Folded("new");
    assert Folded("like_new");
    assert Folded("used_working");
    assert Folded("for_parts");
    assert Folded("unknown");
  }

  lemma ConditionSettles(raw: string)
    ensures NormalizeCondition(NormalizeCondition(raw)) == NormalizeCondition(raw)
  {
    var c := NormalizeCondition(raw);
    CanonicalIsFolded(c);
    FoldKeepsFolded(c);
    CanonicalIsKept(c);
  }

  /** The spellings that mean a condition. */
  function Spellings(condition: string): seq<string> {
    match condition
    case "new" => ["new", "brand new", "factory sealed"]
    case "like_new" => ["like_new", "open box", "manufacturer refurbished"]
    case "used_working" =>
      ["used_working", "used", "pre-owned", "seller refurbished", "pulled from working", "tested working"]
    case "for_parts" => ["for_parts", "for parts", "not working", "parts only", "as-is"]
    case _ => []
  }

  lemma UsedIsRead(folded: string)
    requires folded in Spellings("used_working")
    ensures Lookup(folded) == "used_working"
  {
  }

  lemma PartsAreRead(folded: string)
    requires folded in Spellings("for_parts")
    ensures Lookup(folded) == "for_parts"
  {
  }

  lemma SpelledIsRead(folded: string, condition: string)
    requires folded in Spellings(condition)
    ensures Lookup(folded) == condition
  {
    match condition
    case "used_working" => UsedIsRead(folded);
    case "for_parts" => PartsAreRead(folded);
    case _ =>
  }

  lemma ReadIsSpelled(folded: string)
    requires Lookup(folded) != "unknown"
    ensures folded in Spellings(Lookup(folded))
  {
  }

  /** A condition is read off exactly its own spellings, whatever their case and surrounding space; anything
      else is unknown. */
  lemma ConditionReadExactly(raw: string, condition: string)
    requires condition in CONDITIONS && condition != "unknown"
    ensures NormalizeCondition(raw) == condition <==> Fold(raw) in Spellings(condition)
  {
    if Fold(raw) in Spellings(condition) {
      SpelledIsRead(Fold(raw), condition);
    } else if NormalizeCondition(raw) == condition {
      ReadIsSpelled(Fold(raw));
    }
  }

  lemma GigabytesSettles(capacity: int)
    ensures Gigabytes(Gigabytes(capacity)) == Gigabytes(capacity)
  {
  }

  /** One pass of each clean-up leaves nothing for a second one. */
  predicate Clean(kind: Kind, t: Title, m: Attrs) {
    && (forall key <- OPTIONAL_ENUMS :: !IsPlaceholder(m, key))
    && "confidence" in m
    && (kind == Ram ==>
          && (AttrInt(m, "capacity_gb").Some? ==>
                Gigabytes(AttrInt(m, "capacity_gb").value) == AttrInt(m, "capacity_gb").value)
          && ("speed_mhz" in m ==> CurrentSpeed(m).Some? && SpeedInRange(CurrentSpeed(m).value))
          && ("speed_mhz" !in m ==> t.speed.None?))
    && (kind == Server ==> "tier" in m && m["tier"] == Text(t.tier))
  }

  lemma NormalizedIsClean(kind: Kind, t: Title, m: Attrs)
    ensures Clean(kind, t, Normalized(kind, t, m))
  {
    var stripped := Stripped(m, OPTIONAL_ENUMS);
    assert forall key <- OPTIONAL_ENUMS :: !IsPlaceholder(stripped, key);
    assert "confidence" !in OPTIONAL_ENUMS && "capacity_gb" !in OPTIONAL_ENUMS && "speed_mhz" !in OPTIONAL_ENUMS
        && "tier" !in OPTIONAL_ENUMS;
    var capacity := AttrInt(WithConfidence(stripped), "capacity_gb");
    if capacity.Some? {
      GigabytesSettles(capacity.value);
    }
  }

  lemma CleanIsKept(kind: Kind, t: Title, m: Attrs)
    requires Clean(kind, t, m)
    ensures Normalized(kind, t, m) == m
  {
    assert Stripped(m, OPTIONAL_ENUMS) == m;
    if kind == Ram {
      assert WithCapacity(m) == m;
      assert WithSpeed(t, m) == m;
    }
  }

  /** What normalising leaves of each key: an optional enum stays unless it is a placeholder, a missing confidence
      becomes a half, a server has its title's tier, and nothing else changes but a memory's capacity and speed. */
  lemma NormalizedKey(kind: Kind, t: Title, m: Attrs, key: string)
    requires kind == Ram ==> key != "capacity_gb" && key != "speed_mhz"
    ensures var out := Normalized(kind, t, m);
            if kind == Server && key == "tier" then key in out && out[key] == Text(t.tier)
            else if key in OPTIONAL_ENUMS then
              (key in out <==> key in m && !IsPlaceholder(m, key)) && (key in out ==> out[key] == m[key])
            else if key == "confidence" && key !in m then key in out && out[key] == Number(0.5)
            else (key in out <==> key in m) && (key in m ==> out[key] == m[key])
  {
    assert "tier" !in OPTIONAL_ENUMS && "confidence" !in OPTIONAL_ENUMS;
    assert "capacity_gb" !in OPTIONAL_ENUMS && "speed_mhz" !in OPTIONAL_ENUMS;
  }

  /** A memory's speed is settled from what the model gave, whatever else is cleaned up. */
  lemma NormalizedSpeed(t: Title, m: Attrs)
    ensures var out := Normalized(Ram, t, m);
            if "speed_mhz" in m && IsSpeed(m["speed_mhz"]) then "speed_mhz" in out && out["speed_mhz"] == m["speed_mhz"]
            else if t.speed.Some? then "speed_mhz" in out && out["speed_mhz"] == Whole(t.speed.value)
            else "speed_mhz" !in out
  {
    var clean := WithConfidence(Stripped(m, OPTIONAL_ENUMS));
    assert "speed_mhz" !in OPTIONAL_ENUMS;
    SpeedIsSettled(t, WithCapacity(clean));
    assert "speed_mhz" in WithCapacity(clean) <==> "speed_mhz" in m;
  }

  /** Validation writes nothing but the normalised condition, and that only if there is one to normalise. */
  lemma ValidationWrites(kind: Kind, m: Attrs)
    ensures Validated(kind, m).attrs ==
            if "condition" in m && m["condition"].Text?
            then m["condition" := Text(NormalizeCondition(m["condition"].s))] else m
  {
  }

  lemma ConditionLeavesClean(kind: Kind, t: Title, m: Attrs, v: Value)
    requires Clean(kind, t, m)
    ensures Clean(kind, t, m["condition" := v])
  {
    assert "condition" !in OPTIONAL_ENUMS;
  }

  lemma ValidationSettles(kind: Kind, m: Attrs)
    ensures Validated(kind, Validated(kind, m).attrs) == Validated(kind, m)
  {
    var condition := AttrString(m, "condition");
    if condition.Some? {
      ConditionSettles(condition.value);
      var out := Validated(kind, m).attrs;
      assert out["condition" := out["condition"]] == out;
    }
  }

  /** Normalise-then-validate is idempotent on every map, accepted or rejected: a second pass
      changes nothing and gives the same verdict, so an accepted map is accepted again as it is. */
  lemma SecondPassChangesNothing(kind: Kind, t: Title, m: Attrs)
    ensures var once := Processed(kind, t, m);
            Normalized(kind, t, once.attrs) == once.attrs && Processed(kind, t, once.attrs) == once
  {
    var clean := Normalized(kind, t, m);
    NormalizedIsClean(kind, t, m);
    var once := Processed(kind, t, m);
    var condition := AttrString(clean, "condition");
    if condition.Some? {
      ConditionLeavesClean(kind, t, clean, Text(NormalizeCondition(condition.value)));
    }
    CleanIsKept(kind, t, once.attrs);
    ValidationSettles(kind, clean);
  }

  lemma SpeedComplaint(m: Attrs)
    requires OptionalInt(m, "speed_mhz", MIN_SPEED, MAX_SPEED).None?
    ensures KindError(Ram, m).Some? ==> KindError(Ram, m).value.key != "speed_mhz"
  {
    var a := RequiredInt(m, "capacity_gb", 1, 1024);
    var b := RequiredEnum(m, "generation", GENERATIONS);
    assert a.Some? ==> a.value.key == "capacity_gb";
    assert b.Some? ==> b.value.key == "generation";
  }

  lemma CommonComplaint(m: Attrs)
    ensures CommonChecked(m).error.Some? ==> CommonChecked(m).error.value.key in ["condition", "confidence", "quantity"]
  {
  }

  lemma SpeedKeptByCommon(m: Attrs)
    ensures AttrInt(CommonChecked(m).attrs, "speed_mhz") == AttrInt(m, "speed_mhz")
  {
  }

  /** A normalised memory map is never rejected for its speed, whatever the model returned. */
  lemma NeverRejectedForSpeed(t: Title, m: Attrs)
    ensures Processed(Ram, t, m).error.Some? ==> Processed(Ram, t, m).error.value.key != "speed_mhz"
  {
    var clean := Normalized(Ram, t, m);
    NormalizedIsClean(Ram, t, m);
    CommonComplaint(clean);
    SpeedKeptByCommon(clean);
    assert OptionalInt(CommonChecked(clean).attrs, "speed_mhz", MIN_SPEED, MAX_SPEED).None?;
    SpeedComplaint(CommonChecked(clean).attrs);
  }

  lemma MegabytesSplit(g: int)
    ensures g * 1000 % 1024 == 0 <==> g % 128 == 0
  {
    var q, r := g / 128, g % 128;
    assert g * 1000 == 1024 * (125 * q) + 1000 * r;
    assert 1000 * r % 1024 == 0 <==> r == 0;
    assert g * 1000 % 1024 == 1000 * r % 1024 by { SameRemainder(125 * q, 1000 * r); }
  }

  lemma SameRemainder(k: int, x: int)
    ensures (1024 * k + x) % 1024 == x % 1024
  {
    assert 1024 * k + x == 1024 * (k + x / 1024) + x % 1024;
  }

  /** A capacity of g GB written in MiB or in MB comes back as g under exactly these conditions:
      1 GB is small enough to pass for gigabytes, and a multiple of 128 GB in MB is read as MiB. */
  lemma CapacityRecoveredExactly(g: int)
    requires 1 <= g <= 1024
    ensures Gigabytes(g * 1024) == g <==> g != 1
    ensures Gigabytes(g * 1000) == g <==> g != 1 && g % 128 != 0
  {
    MegabytesSplit(g);
    assert g * 1024 % 1024 == 0 && g * 1024 / 1024 == g;
    assert g * 1000 % 1000 == 0 && g * 1000 / 1000 == g;
  }

  /** So is what the map holds: only the capacity is rewritten, to the gigabytes, as a whole number, whether it came
      as an int or as a float. */
  lemma CapacityWrittenExactly(m: Attrs, g: int, asFloat: bool)
    requires 1 <= g <= 1024
    ensures var mib := if asFloat then Number((g * 1024) as real) else Whole(g * 1024);
            WithCapacity(m["capacity_gb" := mib]) == m["capacity_gb" := Whole(g)] <==> g != 1
    ensures var mb := if asFloat then Number((g * 1000) as real) else Whole(g * 1000);
            WithCapacity(m["capacity_gb" := mb]) == m["capacity_gb" := Whole(g)] <==> g != 1 && g % 128 != 0
  {
    CapacityRecoveredExactly(g);
    CapacityBecomes(m, g * 1024, asFloat, g);
    CapacityBecomes(m, g * 1000, asFloat, g);
  }

  lemma CapacityBecomes(m: Attrs, n: int, asFloat: bool, g: int)
    requires n != g && n >= 0
    ensures var v := if asFloat then Number(n as real) else Whole(n);
            WithCapacity(m["capacity_gb" := v]) == m["capacity_gb" := Whole(g)] <==> Gigabytes(n) == g
  {
    var v := if asFloat then Number(n as real) else Whole(n);
    var before, after := m["capacity_gb" := v], m["capacity_gb" := Whole(g)];
    assert AttrInt(before, "capacity_gb") == Some(n);
    assert AttrInt(after, "capacity_gb") == Some(g);
    assert before != after;
    if Gigabytes(n) != n {
      var out := before["capacity_gb" := Whole(Gigabytes(n))];
      assert out == m["capacity_gb" := Whole(Gigabytes(n))];
      assert AttrInt(out, "capacity_gb") == Some(Gigabytes(n));
    }
  }

  // ------------------------------------------------------------ the schema

  datatype Domain =
    | AnyText
    | NonEmptyText
    | OneOf(values: seq<string>)
    | AtLeast(least: int)
    | Between(lo: int, hi: int)
    | RealBetween(low: real, high: real)

  datatype Field = Field(key: string, required: bool, domain: Domain)

  /** A value of the domain's own type must lie in the domain; any other counts as absent. */
  predicate Meets(m: Attrs, f: Field) {
    var s, n, x := AttrString(m, f.key), AttrInt(m, f.key), AttrFloat(m, f.key);
    match f.domain
    case AnyText => s.Some? || !f.required
    case NonEmptyText => if s.Some? then s.value != "" else !f.required
    case OneOf(values) => if s.Some? then s.value in values else !f.required
    case AtLeast(least) => if n.Some? then least <= n.value else !f.required
    case Between(lo, hi) => if n.Some? then lo <= n.value <= hi else !f.required
    case RealBetween(low, high) => if x.Some? then low <= x.value <= high else !f.required
  }

  const COMMON_FIELDS := [
    Field("condition", true, AnyText), Field("confidence", true, RealBetween(0.0, 1.0)),
    Field("quantity", false, AtLeast(1))]

  function KindFields(kind: Kind): seq<Field> {
    match kind
    case Ram => [
      Field("capacity_gb", true, Between(1, 1024)), Field("generation", true, OneOf(GENERATIONS)),
      Field("speed_mhz", false, Between(MIN_SPEED, MAX_SPEED))]
    case Drive => [
      Field("capacity", true, NonEmptyText), Field("interface", true, OneOf(DRIVE_INTERFACES)),
      Field("form_factor", false, OneOf(DRIVE_FORM_FACTORS)), Field("type", false, OneOf(DRIVE_TYPES))]
    case Server => [
      Field("manufacturer", true, NonEmptyText), Field("model", true, NonEmptyText),
      Field("form_factor", false, OneOf(SERVER_FORM_FACTORS))]
    case Cpu => [
      Field("manufacturer", true, OneOf(CPU_MANUFACTURERS)), Field("family", true, OneOf(CPU_FAMILIES)),
      Field("model", true, NonEmptyText), Field("cores", false, Between(1, 256)),
      Field("base_clock_ghz", false, RealBetween(0.5, 6.0)), Field("tdp_watts", false, Between(10, 500))]
    case Nic => [
      Field("speed", true, OneOf(NIC_SPEEDS)), Field("port_count", true, Between(1, 8)),
      Field("port_type", false, OneOf(NIC_PORT_TYPES))]
    case OtherKind => []
  }

  predicate MeetsAll(m: Attrs, fields: seq<Field>) {
    forall i :: 0 <= i < |fields| ==> Meets(m, fields[i])
  }

  /** What is said of a field that is not met. */
  function Complaint(m: Attrs, f: Field): Error {
    match f.domain
    case AnyText => MissingField(f.key)
    case NonEmptyText => MissingField(f.key)
    case OneOf(_) => if AttrString(m, f.key).None? then MissingField(f.key) else InvalidEnum(f.key)
    case _ => if AttrInt(m, f.key).None? then MissingField(f.key) else OutOfRange(f.key)
  }

  predicate FirstUnmetAt(m: Attrs, fields: seq<Field>, i: nat, error: Error) {
    i < |fields| && !Meets(m, fields[i]) && MeetsAll(m, fields[..i]) && error == Complaint(m, fields[i])
  }

  /** No error when every field is met; otherwise the complaint about the first that is not. */
  ghost predicate Judged(m: Attrs, fields: seq<Field>, error: Option<Error>) {
    if error.None? then MeetsAll(m, fields) else exists i: nat :: FirstUnmetAt(m, fields, i, error.value)
  }

  function Check(m: Attrs, f: Field): Option<Error> {
    if Meets(m, f) then None else Some(Complaint(m, f))
  }

  function Checked(m: Attrs, fields: seq<Field>, i: nat): Option<Error>
    requires i <= |fields|
    decreases |fields| - i
  {
    if i == |fields| then None else First(Check(m, fields[i]), Checked(m, fields, i + 1))
  }

  lemma {:induction false} CheckedJudges(m: Attrs, fields: seq<Field>, i: nat)
    requires i <= |fields| && MeetsAll(m, fields[..i])
    ensures Judged(m, fields, Checked(m, fields, i))
    decreases |fields| - i
  {
    if i < |fields| {
      if Meets(m, fields[i]) {
        assert fields[..i + 1] == fields[..i] + [fields[i]];
        CheckedJudges(m, fields, i + 1);
      } else {
        assert FirstUnmetAt(m, fields, i, Complaint(m, fields[i]));
      }
    } else {
      assert fields[..i] == fields;
    }
  }

  lemma CpuErrorIsChecked(m: Attrs)
    ensures KindError(Cpu, m) == Checked(m, KindFields(Cpu), 0)
  {
    var fields := KindFields(Cpu);
    assert Checked(m, fields, 5) == Check(m, fields[5]) by { assert Checked(m, fields, 6) == None; }
    assert Checked(m, fields, 4) == First(Check(m, fields[4]), Checked(m, fields, 5));
    assert Checked(m, fields, 3) == First(Check(m, fields[3]), Checked(m, fields, 4));
    assert Checked(m, fields, 2) == First(Check(m, fields[2]), Checked(m, fields, 3));
    assert Checked(m, fields, 1) == First(Check(m, fields[1]), Checked(m, fields, 2));
  }

  lemma KindErrorIsChecked(kind: Kind, m: Attrs)
    ensures KindError(kind, m) == Checked(m, KindFields(kind), 0)
  {
    if kind == Cpu {
      CpuErrorIsChecked(m);
    } else {
      var fields := KindFields(kind);
      var n := |fields|;
      if n > 3 { assert Checked(m, fields, 3) == First(Check(m, fields[3]), Checked(m, fields, 4)); }
      if n > 2 { assert Checked(m, fields, 2) == First(Check(m, fields[2]), Checked(m, fields, 3)); }
      if n > 1 { assert Checked(m, fields, 1) == First(Check(m, fields[1]), Checked(m, fields, 2)); }
    }
  }

  lemma CommonIsChecked(m: Attrs)
    ensures CommonChecked(m).error == Checked(m, COMMON_FIELDS, 0)
  {
    assert Checked(m, COMMON_FIELDS, 3) == None;
    assert Checked(m, COMMON_FIELDS, 2) == Check(m, COMMON_FIELDS[2]);
    assert Checked(m, COMMON_FIELDS, 1) == First(Check(m, COMMON_FIELDS[1]), Checked(m, COMMON_FIELDS, 2));
  }

  lemma JudgedThen(m: Attrs, fields: seq<Field>, error: Option<Error>, more: seq<Field>, next: Option<Error>)
    requires Judged(m, fields, error) && Judged(m, more, next)
    ensures Judged(m, fields + more, First(error, next))
  {
    if error.Some? {
      var i: nat :| FirstUnmetAt(m, fields, i, error.value);
      assert (fields + more)[..i] == fields[..i];
      assert FirstUnmetAt(m, fields + more, i, error.value);
    } else if next.Some? {
      var i: nat :| FirstUnmetAt(m, more, i, next.value);
      var j := |fields| + i;
      assert (fields + more)[..j] == fields + more[..i];
      assert FirstUnmetAt(m, fields + more, j, next.value);
    }
  }

  lemma {:induction false} CheckedIgnoresCondition(m: Attrs, v: Value, fields: seq<Field>, i: nat)
    requires i <= |fields| && forall j :: 0 <= j < |fields| ==> fields[j].key != "condition"
    ensures Checked(m["condition" := v], fields, i) == Checked(m, fields, i)
    decreases |fields| - i
  {
    if i < |fields| {
      CheckedIgnoresCondition(m, v, fields, i + 1);
    }
  }

  lemma ConditionIsNoKindField(kind: Kind)
    ensures forall j :: 0 <= j < |KindFields(kind)| ==> KindFields(kind)[j].key != "condition"
  {
  }

  lemma ErrorIsChecked(kind: Kind, m: Attrs)
    ensures Validated(kind, m).error == First(Checked(m, COMMON_FIELDS, 0), Checked(m, KindFields(kind), 0))
  {
    CommonIsChecked(m);
    ConditionIsNoKindField(kind);
    var condition := AttrString(m, "condition");
    if condition.Some? {
      CheckedIgnoresCondition(m, Text(NormalizeCondition(condition.value)), KindFields(kind), 0);
      KindErrorIsChecked(kind, CommonChecked(m).attrs);
    }
  }

  /** The verdict is that of the schema: a map is accepted exactly when it meets every field, common
      ones first, and is otherwise rejected for the first field it does not meet. */
  lemma VerdictIsSchema(kind: Kind, m: Attrs)
    ensures Judged(m, COMMON_FIELDS + KindFields(kind), Validated(kind, m).error)
  {
    ErrorIsChecked(kind, m);
    CheckedJudges(m, COMMON_FIELDS, 0);
    CheckedJudges(m, KindFields(kind), 0);
    JudgedThen(m, COMMON_FIELDS, Checked(m, COMMON_FIELDS, 0), KindFields(kind), Checked(m, KindFields(kind), 0));
  }
}
