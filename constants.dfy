/** The pension strategy names the application displays and accepts. */
module Constants {
  const Dynamic: string := "Dynamická"
  const Conservative: string := "Konzervativní"
  const Balanced: string := "Vyvážená"
}
