/** Reassembling one archive entry from the pieces a streaming decompressor gives out. */
module ZipExtraction {
  import opened Wrappers

  newtype byte = x: int | 0 <= x < 256

  datatype ZipError = ReadFailed | Truncated(read: nat, expected: nat)

  const INITIAL_SIZE: nat := 0x10_0000

  function Clamp(x: nat, low: nat, high: nat): nat
    requires low <= high
  {
    if x < low then low else if x > high then high else x
  }

  /** The open entry: its decompressed bytes, whether reading fails behind the last of them, and how many bytes each read would like to give. */
  class EntryStream {
    const content: seq<byte>
    const broken: bool
    const ready: nat -> nat
    var position: nat
    var served: nat

    constructor (content: seq<byte>, broken: bool, ready: nat -> nat)
      ensures this.content == content && this.broken == broken && this.ready == ready && position == 0
    {
      this.content, this.broken, this.ready := content, broken, ready;
      position, served := 0, 0;
    }

    /** At least one byte while there are any, never more than fit; then 0, or a negative code if the entry is broken. */
    method Read(buffer: array<byte>, at: nat) returns (chunk: int)
      requires at < buffer.Length && position <= |content|
      modifies this`position, this`served, buffer
      ensures chunk > 0 <==> old(position) < |content|
      ensures chunk < 0 <==> old(position) == |content| && broken
      ensures chunk > 0 ==> at + chunk <= buffer.Length && position == old(position) + chunk <= |content|
      ensures chunk > 0 ==> buffer[at..at + chunk] == content[old(position)..position]
      ensures chunk <= 0 ==> position == old(position)
      ensures buffer[..at] == old(buffer[..at])
    {
      served := served + 1;
      if position == |content| {
        return if broken then -1 else 0;
      }
      var room, left := buffer.Length - at, |content| - position;
      var size := Clamp(ready(served), 1, if room < left then room else left);
      for i := 0 to size
        invariant position == old(position)
        invariant buffer[at..at + i] == content[position..position + i]
        invariant buffer[..at] == old(buffer[..at])
      {
        buffer[at + i] := content[position + i];
      }
      position := position + size;
      chunk := size;
    }
  }

  /** What extraction should give: with a declared size its first bytes or a loud failure, otherwise everything. */
  function Extracted(content: seq<byte>, broken: bool, declared: nat): Result<seq<byte>, ZipError> {
    if declared > 0 then
      if |content| >= declared then Ok(content[..declared])
      else if broken then Err(ReadFailed)
      else Err(Truncated(|content|, declared))
    else if broken then Err(ReadFailed) else Ok(content)
  }

  /**
   What comes out is the beginning of the entry: of the declared length, or all of it. A declared size fails
   exactly if there are fewer bytes, saying so unless reading broke; without one only a broken entry fails.
   */
  lemma ExtractedExactly(content: seq<byte>, broken: bool, declared: nat)
    ensures var outcome := Extracted(content, broken, declared);
      && (outcome.Ok? <==> if declared > 0 then |content| >= declared else !broken)
      && (outcome.Ok? ==> outcome.value <= content && |outcome.value| == if declared > 0 then declared else |content|)
      && (outcome == Err(ReadFailed) <==> broken && (declared > 0 ==> |content| < declared))
      && (forall n, m :: outcome == Err(Truncated(n, m)) <==> !broken && n == |content| && m == declared && n < m)
  {
  }

  /** What stands behind the declared bytes has no influence, a failure there included; nor does their number alone suffice if it is larger than what can be read. */
  lemma SurplusIgnored(content: seq<byte>, surplus: seq<byte>, broken: bool, declared: nat)
    requires declared > 0
    ensures Extracted(content + surplus, broken, declared) == Extracted(content, false, declared) <==>
            declared <= |content| || (surplus == [] && !broken)
  {
    if declared <= |content| {
      assert (content + surplus)[..declared] == content[..declared];
    } else {
      assert content + [] == content;
    }
  }

  /** A longer buffer with the same first bytes, the rest zero. */
  method Resized(buffer: array<byte>, size: nat) returns (larger: array<byte>)
    requires size >= buffer.Length
    ensures fresh(larger) && larger.Length == size
    ensures larger[..buffer.Length] == buffer[..] && forall i :: buffer.Length <= i < size ==> larger[i] == 0
  {
    larger := new byte[size](_ => 0);
    for i := 0 to buffer.Length
      invariant larger[..i] == buffer[..i] && forall j :: i <= j < size ==> larger[j] == 0
    {
      larger[i] := buffer[i];
    }
  }

  /** The outcome does not depend on how the decompressor cuts the entry, and the loop always ends. */
  method ReadEntry(stream: EntryStream, declared: nat) returns (extracted: Result<seq<byte>, ZipError>)
    requires stream.position == 0
    modifies stream
    ensures extracted == Extracted(stream.content, stream.broken, declared)
  {
    var buffer := new byte[declared](_ => 0);
    var totalRead := 0;
    while true
      invariant fresh(buffer) && totalRead == stream.position <= |stream.content| && totalRead <= buffer.Length
      invariant declared > 0 ==> buffer.Length == declared
      invariant buffer[..totalRead] == stream.content[..totalRead]
      decreases |stream.content| - totalRead
    {
      if totalRead == buffer.Length {
        if declared > 0 {
          break;
        }
        buffer := Resized(buffer, if buffer.Length == 0 then INITIAL_SIZE else buffer.Length * 2);
        assert buffer[..totalRead] == stream.content[..totalRead];
      }
      var chunk := stream.Read(buffer, totalRead);
      if chunk < 0 {
        return Err(ReadFailed);
      }
      if chunk == 0 {
        break;
      }
      assert buffer[..totalRead + chunk] == buffer[..totalRead] + buffer[totalRead..totalRead + chunk];
      totalRead := totalRead + chunk;
    }
    var result := buffer[..totalRead];
    assert stream.content[..|stream.content|] == stream.content;
    if declared > 0 && totalRead != declared {
      return Err(Truncated(totalRead, declared));
    }
    return Ok(result);
  }
}
