/** What the two upload pages share about sending one file to an external host:
    the size limit, the two hosts and the messages a failed transfer produces.
    The transfer itself is not modelled; its outcome is an input. */
module Hosting {
  import opened Common

  /** 10 MiB: a larger file is rejected before any transfer. */
  const MaxUploadBytes: nat := 10 * 1024 * 1024

  const NoFileMessage := "No file selected"
  const TooLargeMessage := "File size exceeds 10MB limit"
  const ImageHostFallback := "Failed to upload image to ImgBB"
  const PdfHostFallback := "Failed to upload PDF to PDF.co"

  /** A file picked in the browser: its name and its size in bytes. */
  datatype SelectedFile = SelectedFile(name: string, size: nat)

  /** The image host and the PDF host. */
  datatype Host = ImageHost | PdfHost

  /** What a host answered: the URL it returned (empty when the answer carried none),
      or the error message it gave (empty when it gave none). */
  datatype TransferOutcome = Hosted(url: string) | Refused(providerMessage: string)

  /** The message a refused transfer raises: the host's own message, else the host's fallback. */
  function RefusalMessage(host: Host, providerMessage: string): (m: string)
    ensures m != ""
    ensures providerMessage != "" ==> m == providerMessage
    ensures providerMessage == "" ==> m == (if host == ImageHost then ImageHostFallback else PdfHostFallback)
  {
    OrElse(providerMessage, if host == ImageHost then ImageHostFallback else PdfHostFallback)
  }

  /** The result of the transfer to `host`: the returned URL or the raised message. */
  function Transfer(host: Host, outcome: TransferOutcome): (r: Result<string>)
    ensures outcome.Hosted? ==> r == Ok(outcome.url)
    ensures outcome.Refused? ==> r == Err(RefusalMessage(host, outcome.providerMessage))
  {
    match outcome
    case Hosted(url) => Ok(url)
    case Refused(msg) => Err(RefusalMessage(host, msg))
  }
}
