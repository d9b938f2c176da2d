/** The normalised event shared by the engines (internal/telemetry/pipeline.go). Times are nanoseconds since
    1970. */
module TelemetryEvents {
  type int32 = x: int | -0x8000_0000 <= x < 0x8000_0000

  /** Go's zero time, the start of the year 1. */
  const ZERO_TIME: int := -62_135_596_800_000_000_000

  datatype Event = Event(
    typ: string,
    timestamp: int,
    processID: int32,
    parentID: int32,
    binaryPath: string,
    sha256: string,
    commandLine: string,
    username: string,
    filePath: string,
    fileAction: string,
    protocol: string,
    localIP: string,
    localPort: int32,
    remoteIP: string,
    remotePort: int32)
}
