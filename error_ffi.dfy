/** The boundary envelope of appbiotic-code-error: a `Status` (numeric code
    and C-string message) and a `Result` (owned response bytes and a status),
    built from success bytes or from an `Error`, and their null-tolerant
    release functions. */
module ErrorFfi {
  import opened Wrappers
  import Errors
  import opened Ffi

  /** `AppbioticCodeError_Status`. */
  class Status {
    /** An `AppbioticErrorCode` value, 0 (Ok) through 16. */
    var code: int
    var message: FfiString
    /** The status has not been dropped yet. */
    ghost var live: bool

    ghost predicate Valid(h: Heap)
      reads this, message, h
    {
      live && message.Valid(h)
    }

    /** The message text, `None` when the message pointer is null. */
    function MessageText(h: Heap): Option<string>
      reads this, message, h
      requires Valid(h)
    {
      message.Text(h)
    }

    /** `ok()`: code Ok and a null message; nothing is allocated. */
    constructor Ok()
      ensures code == Errors.OK && message.bytes == NULL
      ensures fresh(message)
      ensures forall h: Heap :: Valid(h) && MessageText(h) == None
    {
      code := Errors.OK;
      message := new FfiString.Default();
      live := true;
    }

    /** `From<Error>`: the error's code, and as message its display name
        (the kind's name, not the status message). */
    constructor FromError(h: Heap, e: Errors.Error)
      requires h.Valid()
      modifies h
      ensures h.Valid() && Valid(h) && fresh(message)
      ensures code == Errors.Code(e.kind)
      ensures message.bytes != NULL && message.bytes !in old(h.blocks)
      ensures MessageText(h) == Some(Errors.Display(e))
      ensures h.blocks == old(h.blocks)[message.bytes := CString(Errors.Display(e) + [NUL])]
      ensures h.released == old(h.released)
    {
      code := Errors.Code(e.kind);
      message := new FfiString.FromString(h, Errors.Display(e));
      live := true;
    }

    /** `with_message`: keeps the code and sets the message to the C string
        of the text (null when the text holds a terminator). The status is
        consumed, so its previous message is dropped. */
    method WithMessage(h: Heap, text: string)
      requires h.Valid() && Valid(h)
      modifies this, h, message
      ensures h.Valid() && Valid(h) && fresh(message)
      ensures code == old(code)
      ensures MessageText(h) == if NUL in text then None else Some(text)
      ensures !old(message).live
      ensures old(message.bytes) != NULL ==> old(message.bytes) !in h.blocks && old(message.bytes) in h.released
      ensures old(message.bytes) == NULL ==> h.released == old(h.released)
      ensures forall p :: p in old(h.blocks) && p != old(message.bytes) ==> p in h.blocks && h.blocks[p] == old(h.blocks)[p]
      ensures h.released == old(h.released) + Owned(old(message.bytes))
      ensures message.bytes == NULL ==> h.blocks == old(h.blocks) - Owned(old(message.bytes))
      ensures message.bytes != NULL ==>
        (message.bytes !in old(h.blocks)
         && h.blocks == (old(h.blocks) - Owned(old(message.bytes)))[message.bytes := CString(text + [NUL])])
    {
      var previous := message;
      message := new FfiString.FromString(h, text);
      previous.Drop(h);
    }
  }

  /** `AppbioticCodeError_Status_drop`: null is a no-op; otherwise the boxed
      status is reclaimed, which drops its message. */
  method StatusDrop(h: Heap, ptr: Status?)
    requires h.Valid()
    requires ptr != null ==> ptr.Valid(h)
    modifies h, ptr, if ptr != null then {ptr.message} else {}
    ensures h.Valid()
    ensures ptr == null ==> h.blocks == old(h.blocks) && h.released == old(h.released)
    ensures ptr != null ==> !ptr.live && !ptr.message.live
    ensures ptr != null ==> ptr.message == old(ptr.message) && ptr.message.bytes == old(ptr.message.bytes)
    ensures ptr != null && ptr.message.bytes == NULL ==> h.blocks == old(h.blocks) && h.released == old(h.released)
    ensures ptr != null && ptr.message.bytes != NULL ==>
      h.blocks == old(h.blocks) - {ptr.message.bytes} && h.released == old(h.released) + {ptr.message.bytes}
  {
    if ptr != null {
      ptr.message.Drop(h);
      ptr.live := false;
    }
  }

  /** `AppbioticCodeError_Result`: response bytes and a status. */
  class Result {
    var response: OwnedVec
    var status: Status
    /** The result has not been dropped yet. */
    ghost var live: bool

    ghost predicate Valid(h: Heap)
      reads this, response, status, status.message, h
    {
      live && response.Valid(h) && status.Valid(h)
    }

    /** `From<Vec<u8>>`: an Ok status and a response owning the bytes, in order. */
    constructor FromVec(h: Heap, v: seq<byte>)
      requires h.Valid()
      modifies h
      ensures h.Valid() && Valid(h) && fresh(response) && fresh(status) && fresh(status.message)
      ensures status.code == Errors.OK && status.MessageText(h) == None
      ensures response.data != NULL && response.len == |v| && response.Contents(h) == v
      ensures h.blocks == old(h.blocks)[response.data := Bytes(v)]
      ensures h.released == old(h.released)
    {
      response := new OwnedVec.FromVec(h, v);
      status := new Status.Ok();
      live := true;
    }

    /** `From<Error>`: an empty default response and the status `From<Error>`
        gives. */
    constructor FromError(h: Heap, e: Errors.Error)
      requires h.Valid()
      modifies h
      ensures h.Valid() && Valid(h) && fresh(response) && fresh(status) && fresh(status.message)
      ensures response.data == NULL && response.len == 0
      ensures status.code == Errors.Code(e.kind)
      ensures status.MessageText(h) == Some(Errors.Display(e))
      ensures status.message.bytes != NULL && status.message.bytes !in old(h.blocks)
      ensures h.blocks == old(h.blocks)[status.message.bytes := CString(Errors.Display(e) + [NUL])]
      ensures h.released == old(h.released)
    {
      response := new OwnedVec.Default();
      status := new Status.FromError(h, e);
      live := true;
    }

    /** `with_message`: the response and the status code are kept; only the
        message is replaced, and the previous one dropped. */
    method WithMessage(h: Heap, text: string)
      requires h.Valid() && Valid(h)
      modifies h, status, status.message
      ensures h.Valid() && Valid(h)
      ensures response == old(response) && status == old(status)
      ensures response.data == old(response.data) && response.len == old(response.len)
      ensures response.Contents(h) == old(response.Contents(h))
      ensures status.code == old(status.code)
      ensures status.MessageText(h) == if NUL in text then None else Some(text)
      ensures !old(status.message).live
      ensures old(status.message.bytes) != NULL ==>
        old(status.message.bytes) !in h.blocks && old(status.message.bytes) in h.released
      ensures old(status.message.bytes) == NULL ==> h.released == old(h.released)
      ensures forall p :: p in old(h.blocks) && p != old(status.message.bytes) ==>
        p in h.blocks && h.blocks[p] == old(h.blocks)[p]
      ensures h.released == old(h.released) + Owned(old(status.message.bytes))
      ensures status.message.bytes == NULL ==> h.blocks == old(h.blocks) - Owned(old(status.message.bytes))
      ensures status.message.bytes != NULL ==>
        (status.message.bytes !in old(h.blocks)
         && h.blocks == (old(h.blocks) - Owned(old(status.message.bytes)))[status.message.bytes := CString(text + [NUL])])
    {
      status.WithMessage(h, text);
    }
  }

  /** `AppbioticCodeError_Result_drop`: null is a no-op; otherwise the boxed
      result is reclaimed, which drops its response and its status message. */
  method ResultDrop(h: Heap, ptr: Result?)
    requires h.Valid()
    requires ptr != null ==> ptr.Valid(h)
    modifies h, ptr, if ptr != null then {ptr.response, ptr.status, ptr.status.message} else {}
    ensures h.Valid()
    ensures ptr == null ==> h.blocks == old(h.blocks) && h.released == old(h.released)
    ensures ptr != null ==> !ptr.live && !ptr.response.live && !ptr.status.live && !ptr.status.message.live
    ensures ptr != null ==>
      var released := Owned(old(ptr.response.data)) + Owned(old(ptr.status.message.bytes));
      h.blocks == old(h.blocks) - released && h.released == old(h.released) + released
  {
    if ptr != null {
      ghost var blocks0, released0 := h.blocks, h.released;
      ghost var data, bytes := ptr.response.data, ptr.status.message.bytes;
      assert data != NULL && bytes != NULL ==> data != bytes;
      ptr.response.Drop(h);
      assert h.blocks == blocks0 - Owned(data) && h.released == released0 + Owned(data);
      StatusDrop(h, ptr.status);
      assert h.blocks == blocks0 - Owned(data) - Owned(bytes);
      ptr.live := false;
    }
  }

  /** The allocation a pointer owns: none for null. */
  function Owned(p: Ptr): set<Ptr>
  {
    if p == NULL then {} else {p}
  }

  /** An error crosses the boundary and is released: the other side reads
      the error's code, its display name as message and an empty response;
      releasing the result frees the message and leaves nothing live. */
  method ErrorResultLifecycle(e: Errors.Error) returns (code: int, text: Option<string>, responseLen: nat)
    ensures code == Errors.Code(e.kind) && code != Errors.OK
    ensures text == Some(Errors.Display(e))
    ensures responseLen == 0
  {
    var h := new Heap();
    var result := new Result.FromError(h, e);
    code := result.status.code;
    text := result.status.MessageText(h);
    responseLen := result.response.len;
    ghost var message := result.status.message.bytes;
    assert message != NULL;
    ResultDrop(h, result);
    assert h.released == {message} && h.blocks == map[];
  }
}
