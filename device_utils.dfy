/** The device and network heuristics (frontend/src/utils/DeviceUtils.js). The
    `navigator` fields they read are parameters; a field that is absent or 0
    is `None` or `Some(0)`, both falsy for `||`. */
module DeviceUtils {
  import opened Common

  /** The three levels both functions return: 'low', 'medium', 'high'. */
  datatype Level = Low | Medium | High

  function Rank(l: Level): nat {
    match l
    case Low => 0
    case Medium => 1
    case High => 2
  }

  /** `navigator.connection`: its `type` and `effectiveType`, either possibly absent. */
  datatype Connection = Connection(connectionType: Option<string>, effectiveType: Option<string>)

  const DefaultMemory: real := 4.0
  const DefaultCores: int := 4

  /** `x || default` for a numeric navigator field. */
  function MemoryOrDefault(memory: Option<real>): (m: real)
    ensures memory.None? || memory.value == 0.0 ==> m == DefaultMemory
    ensures memory.Some? && memory.value != 0.0 ==> m == memory.value
  {
    if memory.Some? && memory.value != 0.0 then memory.value else DefaultMemory
  }

  function CoresOrDefault(cores: Option<int>): (c: int)
    ensures cores.None? || cores.value == 0 ==> c == DefaultCores
    ensures cores.Some? && cores.value != 0 ==> c == cores.value
  {
    if cores.Some? && cores.value != 0 then cores.value else DefaultCores
  }

  /** `getDevicePerformance`. */
  function DevicePerformance(memory: Option<real>, cores: Option<int>): (r: Level)
    ensures var m, c := MemoryOrDefault(memory), CoresOrDefault(cores);
      && (r == High <==> m >= 4.0 && c >= 8)
      && (r == Medium <==> !(m >= 4.0 && c >= 8) && m >= 2.0 && c >= 4)
      && (r == Low <==> !(m >= 2.0 && c >= 4))
  {
    var m := MemoryOrDefault(memory);
    var c := CoresOrDefault(cores);
    if m >= 4.0 && c >= 8 then High
    else if m >= 2.0 && c >= 4 then Medium
    else Low
  }

  /** Without either reading the device is taken as 4 GB and 4 cores: medium. */
  lemma UnknownDeviceIsMedium()
    ensures DevicePerformance(None, None) == Medium
    ensures DevicePerformance(Some(0.0), Some(0)) == Medium
  {
  }

  /** More memory and more cores never lower the level. */
  lemma PerformanceMonotone(m1: real, c1: int, m2: real, c2: int)
    requires 0.0 < m1 <= m2 && 0 < c1 <= c2
    ensures Rank(DevicePerformance(Some(m1), Some(c1))) <= Rank(DevicePerformance(Some(m2), Some(c2)))
  {
  }

  /** A cellular connection reporting 'slow-2g' or '2g'. */
  predicate SlowCellular(c: Connection) {
    c.connectionType == Some("cellular") && (c.effectiveType == Some("slow-2g") || c.effectiveType == Some("2g"))
  }

  predicate ThirdGeneration(c: Connection) {
    c.effectiveType == Some("3g")
  }

  /** `getAppropriateImageQuality`. */
  function ImageQuality(memory: Option<real>, cores: Option<int>, isOnline: bool,
                        connection: Option<Connection>): (r: Level)
    ensures !isOnline ==> r == Low
    ensures isOnline && connection.Some? && SlowCellular(connection.value) ==> r == Low
    ensures isOnline && connection.Some? && ThirdGeneration(connection.value) ==> r == Medium
    ensures isOnline && (connection.None? || (!SlowCellular(connection.value) && !ThirdGeneration(connection.value))) ==>
      r == DevicePerformance(memory, cores)
  {
    var performance := DevicePerformance(memory, cores);
    if !isOnline then Low
    else if connection.Some? && SlowCellular(connection.value) then Low
    else if connection.Some? && ThirdGeneration(connection.value) then Medium
    else performance
  }

  /** High quality is chosen only online on a high-performance device, and a
      slow network never raises the level above medium. */
  lemma HighQualityNeedsHighDevice(memory: Option<real>, cores: Option<int>, isOnline: bool,
                                   connection: Option<Connection>)
    ensures ImageQuality(memory, cores, isOnline, connection) == High ==>
      isOnline && DevicePerformance(memory, cores) == High
    ensures Rank(ImageQuality(memory, cores, isOnline, connection)) <= Rank(DevicePerformance(memory, cores)) ||
      ImageQuality(memory, cores, isOnline, connection) == Medium
  {
  }
}
