/** The limits that the communicators share, fleetspeak/src/client/https/https.go. */
module Thresholds {
  const SEND_BYTES_THRESHOLD: nat := 15 * 1024 * 1024
  const MIN_SEND_BYTES_THRESHOLD: nat := 256 * 1024
  const SEND_COUNT_THRESHOLD: nat := 100
}
