/**
 * The shared records of the sampler (include/WinHKMonLib/Types.h).
 * Unsigned 64-bit counters are naturals below 2^64; percentages and
 * floating-point fields are reals.
 */
module Types {
  import opened Wrappers

  const TwoTo64: nat := 0x1_0000_0000_0000_0000

  type uint64 = x: nat | x < TwoTo64

  /** Per-core CPU statistics; coreId is the 0-based logical processor index. */
  datatype CoreStats = CoreStats(coreId: nat, usagePercent: real, frequencyMhz: uint64)

  datatype CpuStats = CpuStats(
    totalUsagePercent: real,
    cores: seq<CoreStats>,
    averageFrequencyMhz: uint64,
    userPercent: Option<real>,
    systemPercent: Option<real>,
    idlePercent: Option<real>)

  datatype MemoryStats = MemoryStats(
    totalPhysicalBytes: uint64,
    availablePhysicalBytes: uint64,
    usedPhysicalBytes: uint64,
    usagePercent: real,
    totalPageFileBytes: uint64,
    availablePageFileBytes: uint64,
    usedPageFileBytes: uint64,
    pageFilePercent: real,
    cachedBytes: Option<uint64>,
    committedBytes: Option<uint64>)

  datatype DiskStats = DiskStats(
    deviceName: string,
    totalSizeBytes: uint64,
    usedBytes: uint64,
    freeBytes: uint64,
    bytesReadPerSec: uint64,
    bytesWrittenPerSec: uint64,
    percentBusy: real,
    totalBytesRead: uint64,
    totalBytesWritten: uint64,
    readsPerSec: Option<uint64>,
    writesPerSec: Option<uint64>)

  datatype InterfaceStats = InterfaceStats(
    name: string,
    description: string,
    isConnected: bool,
    linkSpeedBitsPerSec: uint64,
    inBytesPerSec: uint64,
    outBytesPerSec: uint64,
    totalInOctets: uint64,
    totalOutOctets: uint64,
    inPacketsPerSec: Option<uint64>,
    outPacketsPerSec: Option<uint64>,
    inErrors: Option<uint64>,
    outErrors: Option<uint64>)

  datatype SensorReading = SensorReading(name: string, tempCelsius: int, hardwareType: string)

  datatype TempStats = TempStats(
    cpuTemps: seq<SensorReading>,
    gpuTemps: seq<SensorReading>,
    otherTemps: seq<SensorReading>,
    maxCpuTempCelsius: int,
    minCpuTempCelsius: Option<int>,
    avgCpuTempCelsius: Option<int>)

  /** Every metric family is optional; only the timestamp is always present. */
  datatype SystemMetrics = SystemMetrics(
    cpu: Option<CpuStats>,
    memory: Option<MemoryStats>,
    disks: Option<seq<DiskStats>>,
    network: Option<seq<InterfaceStats>>,
    temperature: Option<TempStats>,
    timestamp: uint64)

  datatype OutputFormat = Text | Json | Csv

  datatype NetworkUnit = Bits | Bytes

  datatype CliOptions = CliOptions(
    showCpu: bool,
    showMemory: bool,
    showDiskSpace: bool,
    showDiskIO: bool,
    showNetwork: bool,
    showTemp: bool,
    networkInterface: string,
    format: OutputFormat,
    singleLine: bool,
    continuous: bool,
    intervalSeconds: real,
    networkUnit: NetworkUnit,
    showHelp: bool,
    showVersion: bool)

  /** The default member initialisers of CliOptions. */
  const DefaultCliOptions: CliOptions :=
    CliOptions(false, false, false, false, false, false, "", Text, false, false, 1.0, Bits, false, false)

  predicate AnyMetricSelected(o: CliOptions) {
    o.showCpu || o.showMemory || o.showDiskSpace || o.showDiskIO || o.showNetwork || o.showTemp
  }

  /** A snapshot carrying no metric family at all. */
  function EmptyMetrics(timestamp: uint64): (m: SystemMetrics)
    ensures m.timestamp == timestamp
    ensures m.cpu.None? && m.memory.None? && m.disks.None? && m.network.None? && m.temperature.None?
  {
    SystemMetrics(None, None, None, None, None, timestamp)
  }

  /** Unsigned 64-bit wrap-around, as C++ arithmetic on uint64_t does it. */
  function Wrap64(x: int): (r: uint64)
    ensures 0 <= x < TwoTo64 ==> r == x
  {
    x % TwoTo64
  }
}
