/** The `memory_management` example crate: a value that announces its own
    drop, a consumer implemented on the C++ side, and functions that hand such
    values over or panic with them. Standard output is a list of lines. */
module MemoryManagement {
  import opened Wrappers

  datatype PrintOnDrop = PrintOnDrop(name: string)

  /** Both fields are dropped in declaration order. */
  datatype PrintOnDropPair = PrintOnDropPair(first: PrintOnDrop, second: PrintOnDrop)

  function DropMessage(p: PrintOnDrop): string {
    "PrintOnDrop(" + p.name + ") has been dropped"
  }

  /** Different values announce different drops. */
  lemma DropMessageInjective(p: PrintOnDrop, q: PrintOnDrop)
    requires DropMessage(p) == DropMessage(q)
    ensures p == q
  {
    var m := DropMessage(p);
    var tail := |") has been dropped"|;
    assert p.name == m[12..|m| - tail] == q.name;
  }

  class Stdout {
    var lines: seq<string>

    constructor()
      ensures lines == []
    {
      lines := [];
    }

    method PrintLine(s: string)
      modifies this
      ensures lines == old(lines) + [s]
    {
      lines := lines + [s];
    }
  }

  /** `impl Drop for PrintOnDrop`: one line per drop. */
  method Drop(p: PrintOnDrop, out: Stdout)
    modifies out
    ensures out.lines == old(out.lines) + [DropMessage(p)]
  {
    out.PrintLine(DropMessage(p));
  }

  /** Dropping a pair drops `first`, then `second`. */
  method DropPair(pair: PrintOnDropPair, out: Stdout)
    modifies out
    ensures out.lines == old(out.lines) + [DropMessage(pair.first), DropMessage(pair.second)]
  {
    Drop(pair.first, out);
    Drop(pair.second, out);
  }

  /** A `dyn PrintOnDropConsumer` (implemented in C++): what it has been
      given, in order. */
  class Consumer {
    var received: seq<PrintOnDrop>

    constructor()
      ensures received == []
    {
      received := [];
    }

    method Consume(p: PrintOnDrop)
      modifies this
      ensures received == old(received) + [p]
    {
      received := received + [p];
    }
  }

  /** `times` copies of one value. */
  function Copies(p: PrintOnDrop, times: nat): (r: seq<PrintOnDrop>)
    ensures |r| == times && forall i :: 0 <= i < times ==> r[i] == p
  {
    if times == 0 then [] else Copies(p, times - 1) + [p]
  }

  /** `consume_n_times`: `times` calls of `consume`, each with a fresh
      `PrintOnDrop(name)`; none for `times = 0`. */
  method ConsumeNTimes(consumer: Consumer, name: string, times: nat)
    modifies consumer
    ensures consumer.received == old(consumer.received) + Copies(PrintOnDrop(name), times)
  {
    for k := 0 to times
      invariant consumer.received == old(consumer.received) + Copies(PrintOnDrop(name), k)
    {
      consumer.Consume(PrintOnDrop(name));
    }
  }

  function PanicMessage(p: PrintOnDrop): string {
    "consume_and_panic executed with value " + p.name
  }

  /** `consume_and_panic`: the argument back, or a panic that drops it while
      unwinding. */
  method ConsumeAndPanic(p: PrintOnDrop, doPanic: bool, out: Stdout) returns (r: Result<PrintOnDrop, string>)
    modifies out
    ensures !doPanic ==> r == Ok(p) && out.lines == old(out.lines)
    ensures doPanic ==> r == Err(PanicMessage(p)) && out.lines == old(out.lines) + [DropMessage(p)]
  {
    if doPanic {
      r := Err(PanicMessage(p));
      Drop(p, out);
      return;
    }
    r := Ok(p);
  }
}
