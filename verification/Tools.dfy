/** What a request offers to be called: tools, their parameters, and the tags a call is written with. */
module Tools {

  newtype Byte = b: int | 0 <= b < 256

  type Bytes = seq<Byte>

  /** ASCII text as bytes. Names and literals arrive as bytes already: a UTF-8 spelling. */
  function Ascii(text: string): (r: Bytes)
    ensures |r| == |text|
    ensures forall i | 0 <= i < |text| && text[i] < 128 as char :: r[i] as int == text[i] as int
  {
    seq(|text|, i requires 0 <= i < |text| => (text[i] as int % 128) as Byte)
  }

  /** What may stand as a value. */
  datatype ValueSpec =
    | Text
    | Literals(literals: seq<Bytes>)
    | Boolean
    | Integer
    | Number
    | Null

  datatype ParamSpec = ParamSpec(name: Bytes, required: bool, value: ValueSpec)

  datatype ToolSpec = ToolSpec(name: Bytes, params: seq<ParamSpec>)

  /** What ends a value. */
  const CLOSE: Bytes := Ascii("\n</parameter>\n")

  function FunctionOpen(tool: ToolSpec): Bytes {
    Ascii("<function=") + tool.name + Ascii(">\n")
  }

  function FunctionClose(): Bytes {
    Ascii("</function>\n")
  }

  function ParameterOpen(param: ParamSpec): Bytes {
    Ascii("<parameter=") + param.name + Ascii(">\n")
  }

  function CallOpen(): Bytes {
    Ascii("<tool_call>\n")
  }

  function CallClose(): Bytes {
    Ascii("</tool_call>")
  }

  /** The whitespace that may follow a closed call. */
  function Spaces(): Bytes {
    Ascii(" \t\n\r")
  }

  /** A parameter index is held in one byte, and only the first 64 values of it are tracked. */
  const TRACKED_PARAMS: nat := 64

  /** The bit a parameter occupies in a cursor's word, as a set of bit positions; none past the tracked ones. */
  function ParamBit(param: nat): (bit: set<nat>)
    ensures forall b :: b in bit <==> b == param % 256 && b < 64
  {
    if param % 256 < TRACKED_PARAMS then {param % 256} else {}
  }

  /** The bits a cursor must hold before the call may close. */
  function RequiredBits(params: seq<ParamSpec>): set<nat> {
    set p, b | 0 <= p < |params| && params[p].required && b in ParamBit(p) :: b
  }

  const TOOL_IDS: nat := 65536

  /** A tool index is held in two bytes. */
  function ToolId(index: nat): (id: nat)
    ensures id <= index && id < 0x1_0000 && (index - id) % 0x1_0000 == 0
    ensures index < 0x1_0000 ==> id == index
  {
    index % TOOL_IDS
  }

  /** What the output is watched for. */
  function Triggers(tools: seq<ToolSpec>): (r: seq<Bytes>)
    ensures |r| == 1 + |tools|
  {
    [Ascii("<tool_call>")]
    + seq(|tools|, t requires 0 <= t < |tools| => Ascii("<function=") + tools[t].name + Ascii(">"))
  }
}
