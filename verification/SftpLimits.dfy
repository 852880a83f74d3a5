/** The limits of both pipelines in src-tauri/src/protocol/sftp/client.rs. */
module SftpLimits {
  /** The most bytes one READ or WRITE asks for. */
  const CHUNK_SIZE := 32768

  /** The most requests a pipeline has outstanding. */
  const MAX_IN_FLIGHT := 64
}
