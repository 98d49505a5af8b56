/** The append-only files of the source, and everything that can go wrong while one record is written. */
module DurableFile {

  /** How the storage may behave during one transaction. */
  datatype Fault =
    | NoFault
    | Unavailable              // busy lock, lost custody or a failed read: nothing was written
    | Torn(written: nat)       // the write stopped early or raised after `written` bytes
    | Unconfirmed              // all bytes written; the sync, the read-back, or in record_resource the unlock failed

  /** How much of a text reaches the file. */
  function Written(text: string, fault: Fault): (n: nat)
    ensures n <= |text|
  {
    match fault
    case NoFault => |text|
    case Unconfirmed => |text|
    case Torn(n) => if n <= |text| then n else 0
    case Unavailable => 0
  }

  /** What a file holds after an append that met `fault`; nothing is ever removed. */
  function Left(before: string, text: string, fault: Fault): string {
    before + text[..Written(text, fault)]
  }

  class Storage {
    var content: string

    constructor (initial: string)
      ensures content == initial
    {
      content := initial;
    }

    /** Appends the whole text, or some prefix of it and reports the failure. */
    method Append(text: string, fault: Fault) returns (ok: bool)
      modifies this
      ensures ok <==> fault.NoFault? || fault.Unconfirmed?
      ensures content == Left(old(content), text, fault)
      ensures ok ==> content == old(content) + text
    {
      content := content + text[..Written(text, fault)];
      ok := fault.NoFault? || fault.Unconfirmed?;
      assert text[..|text|] == text;
    }
  }
}
