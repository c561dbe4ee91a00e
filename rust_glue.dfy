/** The Rust half of the glue the generator emits for a crate: the thread-local
    slot through which a panic inside a wrapped Rust call is reported to C++,
    and the owned handle Rust keeps on a C++ object. */
module RustGlue {

  /** `PANIC_PAYLOAD`, a `Cell<Option<()>>`: `true` stands for `Some(())`. */
  class PanicPayload {
    var payload: bool

    /** `Cell::new(None)`. */
    constructor()
      ensures !payload
    {
      payload := false;
    }

    /** `_zngur__detect_panic`: take the payload out, answer whether there was
        one, and put it back, so it reads without consuming. */
    method DetectPanic() returns (r: bv8)
      modifies this
      ensures r == 1 <==> old(payload)
      ensures r == 0 <==> !old(payload)
      ensures payload == old(payload)
    {
      var pp := payload;
      payload := false;
      r := if pp then 1 else 0;
      payload := pp;
    }

    /** `_zngur__take_panic`: drop the payload. */
    method TakePanic()
      modifies this
      ensures !payload
    {
      payload := false;
    }

    /** A wrapped call (`catch_unwind` around the Rust function): a panic sets
        the payload, a normal return leaves it as it was. */
    method CatchUnwind(panics: bool)
      modifies this
      ensures payload == (old(payload) || panics)
    {
      if panics {
        payload := true;
      }
    }
  }

  /** The destructor calls a Rust handle makes on C++ objects, as
      (destructor, data pointer) pairs. */
  class DestructorLog {
    var calls: seq<(nat, nat)>

    constructor()
      ensures calls == []
    {
      calls := [];
    }

    method Call(destructor: nat, data: nat)
      modifies this
      ensures calls == old(calls) + [(destructor, data)]
    {
      calls := calls + [(destructor, data)];
    }
  }

  /** `ZngurCppOpaqueOwnedObject`: a C++ object owned from Rust, as its data
      pointer and the C++ destructor to run on it. `live` is Rust's ownership:
      the value can be dropped once. */
  class OpaqueOwnedObject {
    const data: nat
    const destructor: nat
    var live: bool

    constructor(data: nat, destructor: nat)
      ensures this.data == data && this.destructor == destructor && live
    {
      this.data := data;
      this.destructor := destructor;
      live := true;
    }

    /** `ptr`: the pointer the object was made with. */
    function Ptr(): (r: nat)
      ensures r == data
    {
      data
    }

    /** `Drop`: run the destructor on the data, once. */
    method Drop(log: DestructorLog)
      requires live
      modifies this, log
      ensures !live
      ensures log.calls == old(log.calls) + [(destructor, data)]
    {
      log.Call(destructor, data);
      live := false;
    }
  }
}
