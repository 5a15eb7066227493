/**
 * The test counter program's instruction tags: 0 initialize, 1 increment,
 * 2 get_value. Bytes after the tag are ignored.
 */
module CounterInstructions {
  import opened Wrappers
  import opened Bytes
  import opened Solana

  datatype Command = Initialize | Increment | GetValue

  function Tag(c: Command): Byte {
    match c
    case Initialize => 0
    case Increment => 1
    case GetValue => 2
  }

  /** Empty data, or a tag other than 0, 1 or 2, is `InvalidInstructionData`. */
  function DecodeCommand(data: seq<Byte>): (r: Result<Command, ProgramError>)
    ensures r.Err? <==> |data| == 0 || data[0] > 2
    ensures r.Err? ==> r.error == InvalidInstructionData
    ensures r.Ok? ==> Tag(r.value) == data[0]
  {
    if |data| == 0 then Err(InvalidInstructionData)
    else if data[0] == 0 then Ok(Initialize)
    else if data[0] == 1 then Ok(Increment)
    else if data[0] == 2 then Ok(GetValue)
    else Err(InvalidInstructionData)
  }

  /** Every command is decoded from its tag, whatever follows it. */
  lemma DecodeTag(c: Command, rest: seq<Byte>)
    ensures DecodeCommand([Tag(c)] + rest) == Ok(c)
  {
  }
}
