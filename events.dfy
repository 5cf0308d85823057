/** What the core asks of the trajectory container, recorded as events. */
module Events {

  /** The data blocks the core configures and writes. */
  datatype BlockKind = Positions | BoxShape | Lambdas | Velocities | Forces

  /** Whether a block holds one value set per particle or one for the whole system. */
  datatype Scope = ParticleBlockData | NonParticleBlockData

  /** TNG_TNG_COMPRESSION (lossy) or TNG_GZIP_COMPRESSION (lossless). */
  datatype Compression = TngCompression | GzipCompression

  /** One call of the container's write-interval setter. */
  datatype WritingInterval = WritingInterval(stride: int, components: nat, kind: BlockKind,
                                             scope: Scope, compression: Compression)

  /** One call of the container's block writer; the payload and the time are not recorded. */
  datatype BlockWrite = BlockWrite(step: int, components: nat, kind: BlockKind,
                                   scope: Scope, compression: Compression)

  datatype Event =
    | SetFramesPerFrameSet(frames: int)
    | SetInterval(interval: WritingInterval)
    | SetImplicitParticleCount(count: int)
    | WriteBlock(block: BlockWrite)

  /** Positions and velocities follow the mode; everything else is always GZIP. */
  function ModeCompression(lossy: bool): Compression {
    if lossy then TngCompression else GzipCompression
  }
}
