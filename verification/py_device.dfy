/**
 * What the Python device classes share when they set a key image: the
 * image layout the key is formatted for and the one transport call the
 * setter makes. A setter either returns -1 without touching the transport
 * or makes exactly one write, whose status it returns.
 */
module PyDevice {
  /** The image layout requested from the image helpers before a write. */
  datatype ImageFormat = KeyFormat | SecondScreenFormat | TouchscreenFormat

  /** The transport entry point a write goes through. */
  datatype WriteCall = SetKeyImg | SetKeyImgDualDevice

  /** The decision of a `set_key_image`: reject with -1, or write one key image. */
  datatype KeyImageAction =
    | Reject
    | Write(call: WriteCall, format: ImageFormat, hwKey: int)

  /** The value the setter returns, given the status the transport call reports. */
  function ReturnValue(a: KeyImageAction, transportStatus: int): (r: int)
    ensures a.Reject? ==> r == -1
    ensures a.Write? ==> r == transportStatus
  {
    match a
    case Reject => -1
    case Write(_, _, _) => transportStatus
  }

  /**
   * The key layout shared by the 15-key models: the first and last rows of
   * five swap places and the middle row stays, so logical 1..5 is hardware
   * 11..15 and the other way round.
   */
  function RowSwap(k: int): int
  {
    if 1 <= k <= 5 then k + 10 else if 11 <= k <= 15 then k - 10 else k
  }

  /** The row swap is its own inverse and keeps 1..15 in place as a set. */
  lemma RowSwapInvolution(k: int)
    ensures RowSwap(RowSwap(k)) == k
    ensures 1 <= k <= 15 <==> 1 <= RowSwap(k) <= 15
  {
  }
}
