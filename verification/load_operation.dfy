/** One image download (LoadOperation): the result it selects when the network answers,
    and the fan-out of that result to its completion handlers (handleResult). */
module LoadOperation {
  import opened Wrappers

  /** A decoded image; the number stands for the UIImage object. */
  datatype Image = Image(id: nat)

  /** Raw bytes returned by the network. */
  type Bytes = seq<bv8>

  /** An operation: the URL it downloads, its completion handlers in append order, the
      image it stored when it handled its result, whether it was cancelled, and whether
      its network callback has already run. The handler type is left open: what a handler
      does is the image loader's business. */
  datatype Operation<H> = Operation(
    url: string,
    handlers: seq<H>,
    image: Option<Image>,
    cancelled: bool,
    delivered: bool
  )

  /** A new operation for `url` holding the one handler it is created with. */
  function Fresh<H>(url: string, handler: H): (op: Operation<H>)
    ensures op.url == url && op.handlers == [handler]
    ensures op.image == None && !op.cancelled && !op.delivered
  {
    Operation(url, [handler], None, false, false)
  }

  /** The result main hands to handleResult: nothing for a cancelled operation, nothing
      when the data is missing or does not decode to an image, otherwise the image.
      Image decoding (UIImage(data:)) is the parameter `decode`. */
  function SelectResult(cancelled: bool, data: Option<Bytes>, decode: Bytes -> Option<Image>): (r: Option<Image>)
    ensures cancelled ==> r == None
    ensures data == None ==> r == None
    ensures !cancelled && data.Some? ==> r == decode(data.value)
    ensures r.Some? ==> !cancelled && data.Some?
  {
    if cancelled then None
    else match data
      case None => None
      case Some(bytes) => decode(bytes)
  }

  /** The calls handleResult's loop makes: each handler once, in append order, with the
      same value. */
  function Invocations<H>(handlers: seq<H>, image: Option<Image>): (calls: seq<(H, Option<Image>)>)
    ensures |calls| == |handlers|
    ensures forall i :: 0 <= i < |handlers| ==> calls[i] == (handlers[i], image)
  {
    if handlers == [] then []
    else [(handlers[0], image)] + Invocations(handlers[1..], image)
  }

  /** handleResult: store the image, call every handler with it, then clear the handlers.
      Returns the operation afterwards and the calls made, in order. */
  function HandleResult<H>(op: Operation<H>, image: Option<Image>): (r: (Operation<H>, seq<(H, Option<Image>)>))
    ensures r.0 == op.(handlers := [], image := image)
    ensures |r.1| == |op.handlers|
    ensures forall i :: 0 <= i < |op.handlers| ==> r.1[i] == (op.handlers[i], image)
  {
    (op.(image := image, handlers := []), Invocations(op.handlers, image))
  }
}
