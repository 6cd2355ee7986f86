/** How the consensus layer peeks at JSON payloads. A JSON parser is a parameter, `seq<byte> -> Document`; what Go's
    encoding/json then does with the four fields that matter is written out, because two peeking structs differ. */
module Payloads {
  import opened Codec

  datatype Field = Absent | Null | Text(s: string) | Number(n: int) | Other

  datatype Document = NotJson | Object(id: Field, state: Field, entry: Field, timestamp: Field)

  type Parser = seq<byte> -> Document

  const PENDING := 0
  const RUNNING := 1
  const COMPLETED := 2
  const FAILED := 3

  predicate IsTextOrNothing(f: Field) {
    f.Absent? || f.Null? || f.Text?
  }

  predicate IsNumberOrNothing(f: Field) {
    f.Absent? || f.Null? || f.Number?
  }

  function TextOf(f: Field): string {
    if f.Text? then f.s else ""
  }

  /** genericPayload of the file system layer: `entry` must be a string. */
  predicate IsGeneric(d: Document) {
    d.Object? && IsTextOrNothing(d.id) && IsNumberOrNothing(d.state) && IsTextOrNothing(d.entry)
  }

  /** peekPayload of the claim guard: `entry` may be anything, and there is a timestamp, which must be a number. */
  predicate IsClaim(d: Document) {
    d.Object? && IsTextOrNothing(d.id) && IsNumberOrNothing(d.state) && IsNumberOrNothing(d.timestamp)
  }

  /** fmt's %v of an `entry`, as far as the guard tells values apart. */
  function Shown(f: Field): string {
    match f
    case Text(s) => s
    case Number(2) => "2"
    case Number(3) => "3"
    case _ => "?"
  }

  /** Where the two peeks agree and where they do not: an identifier that is no string, or a state that is no number,
      stops both; an `entry` that is no string stops only the file system layer, and a timestamp that is no number only
      the guard. */
  lemma PeeksExactly(d: Document)
    ensures IsGeneric(d) || IsClaim(d) ==>
              d.Object? && d.id in {Absent, Null, Text(TextOf(d.id))} && (d.state in {Absent, Null} || d.state.Number?)
    ensures d.Object? && d.id in {Absent, Null, Text(TextOf(d.id))}
            && (d.state in {Absent, Null} || d.state.Number?) ==>
              && (IsGeneric(d) <==> d.entry in {Absent, Null} || d.entry.Text?)
              && (IsClaim(d) <==> d.timestamp in {Absent, Null} || d.timestamp.Number?)
  {
  }
}
