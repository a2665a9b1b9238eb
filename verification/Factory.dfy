/** The implementations of implcaps/factory/mapping.go and the capability category each provides. */
module Factory {
  import opened Wrappers

  datatype Category =
    | EnumerateDevice | DeviceRemoval
    | ProductInformation | TemperatureSensor | RelativeHumiditySensor | PressureSensor
    | Identify | PowerSupply | DeviceWorkarounds

  /** A capability object, seen through its `ImplName` and `Capability` methods. */
  datatype Implementation = Implementation(name: string, category: Category)

  /** Implementation names and the category each provides. */
  type Mapping = map<string, Category>

  const MAPPING: Mapping := map[
    "GenericProductInformation" := ProductInformation,
    "ZCLTemperatureSensor" := TemperatureSensor,
    "ZCLHumiditySensor" := RelativeHumiditySensor,
    "ZCLPressureSensor" := PressureSensor,
    "ZCLIdentify" := Identify,
    "ZCLPowerSupply" := PowerSupply,
    "GenericDeviceWorkarounds" := DeviceWorkarounds
  ]

  function Create(name: string): Option<Implementation> {
    if name == "GenericProductInformation" then Some(Implementation("GenericProductInformation", ProductInformation))
    else if name == "ZCLTemperatureSensor" then Some(Implementation("ZCLTemperatureSensor", TemperatureSensor))
    else if name == "ZCLHumiditySensor" then Some(Implementation("ZCLHumiditySensor", RelativeHumiditySensor))
    else if name == "ZCLPressureSensor" then Some(Implementation("ZCLPressureSensor", PressureSensor))
    else if name == "ZCLIdentify" then Some(Implementation("ZCLIdentify", Identify))
    else if name == "ZCLPowerSupply" then Some(Implementation("ZCLPowerSupply", PowerSupply))
    else if name == "GenericDeviceWorkarounds" then Some(Implementation("GenericDeviceWorkarounds", DeviceWorkarounds))
    else None
  }

  /** A category a device can hold besides the two built into every device. */
  predicate Attachable(c: Category) {
    c != EnumerateDevice && c != DeviceRemoval
  }

  /** No category has two implementations, and none is one of the built-in categories. */
  ghost predicate WellMapped(m: Mapping) {
    && (forall n <- m :: Attachable(m[n]))
    && (forall a <- m, b <- m | m[a] == m[b] :: a == b)
  }

  /** The factory makes just the mapped names, with their own name and category. */
  ghost predicate Faithful(m: Mapping, create: string -> Option<Implementation>) {
    forall n :: create(n) == if n in m then Some(Implementation(n, m[n])) else None
  }

  lemma NamesInjective(a: string, b: string)
    requires a in MAPPING && b in MAPPING
    ensures Attachable(MAPPING[a])
    ensures MAPPING[a] == MAPPING[b] ==> a == b
  {
  }

  lemma MappingWellMapped()
    ensures WellMapped(MAPPING)
  {
    forall a <- MAPPING, b <- MAPPING ensures Attachable(MAPPING[a]) && (MAPPING[a] == MAPPING[b] ==> a == b) {
      NamesInjective(a, b);
    }
  }

  lemma CreateOf(n: string)
    ensures Create(n) == if n in MAPPING then Some(Implementation(n, MAPPING[n])) else None
  {
  }

  /** The two tables of the factory agree, so everything proved for a faithful factory holds of this one. */
  lemma FactoryIsFaithful()
    ensures WellMapped(MAPPING) && Faithful(MAPPING, Create)
  {
    MappingWellMapped();
    forall n ensures Create(n) == if n in MAPPING then Some(Implementation(n, MAPPING[n])) else None {
      CreateOf(n);
    }
  }

  /** The seven implementations and their categories, as the factory maps and makes them. */
  lemma FactoryTable(n: string)
    ensures MAPPING.Keys == {"GenericProductInformation", "ZCLTemperatureSensor", "ZCLHumiditySensor",
                             "ZCLPressureSensor", "ZCLIdentify", "ZCLPowerSupply", "GenericDeviceWorkarounds"}
    ensures Create("GenericProductInformation") == Some(Implementation("GenericProductInformation", ProductInformation))
    ensures Create("ZCLTemperatureSensor") == Some(Implementation("ZCLTemperatureSensor", TemperatureSensor))
    ensures Create("ZCLHumiditySensor") == Some(Implementation("ZCLHumiditySensor", RelativeHumiditySensor))
    ensures Create("ZCLPressureSensor") == Some(Implementation("ZCLPressureSensor", PressureSensor))
    ensures Create("ZCLIdentify") == Some(Implementation("ZCLIdentify", Identify))
    ensures Create("ZCLPowerSupply") == Some(Implementation("ZCLPowerSupply", PowerSupply))
    ensures Create("GenericDeviceWorkarounds") == Some(Implementation("GenericDeviceWorkarounds", DeviceWorkarounds))
    ensures Create(n).Some? <==> n in MAPPING
    ensures n in MAPPING ==> Create(n).value.category == MAPPING[n] && Create(n).value.name == n
  {
    CreateOf(n);
  }
}
