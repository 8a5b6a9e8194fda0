// The byte-string arithmetic of read, write and truncate, and of the size
// branch of setattr that drives the last two.
module FileData {

  import opened Wrappers

  const NUL: char := '\0'

  function Zeros(n: nat): (s: string)
    ensures |s| == n
  {
    seq(n, _ => NUL)
  }

  // std::string::replace(pos, len, text) for pos <= size
  function Replace(content: string, pos: nat, len: nat, text: string): string
    requires pos <= |content|
  {
    content[..pos] + text + if pos + len <= |content| then content[pos + len..] else ""
  }

  function WriteText(content: string, off: nat, data: string): string {
    if off < |content| then Replace(content, off, |data|, data)
    else content + Zeros(off - |content|) + data
  }

  // None when replace throws because the offset is past the end.
  function ReadText(content: string, off: nat, size: nat): Option<string> {
    if off > |content| then None
    else Some(content[off..if off + size <= |content| then off + size else |content|])
  }

  // The argument is the number of bytes to cut off; None when erase throws.
  function TruncateText(content: string, cut: nat): Option<string> {
    if cut > |content| then None else Some(content[..|content| - cut])
  }

  // Byte i of the file after a write, stated without reference to how the
  // string is put together.
  function Written(content: string, off: nat, data: string, i: nat): char
    requires i < Max(|content|, off + |data|)
  {
    if off <= i < off + |data| then data[i - off]
    else if i < |content| then content[i]
    else NUL
  }

  // New bytes in range, zeros in the gap, old bytes elsewhere.  The length is
  // the larger of the old one and the end of the write, an empty write past the
  // end included: it pads up to the offset.
  lemma WriteSpec(content: string, off: nat, data: string)
    ensures |WriteText(content, off, data)| == Max(|content|, off + |data|)
    ensures forall i | 0 <= i < Max(|content|, off + |data|) ::
      WriteText(content, off, data)[i] == Written(content, off, data, i)
  {
  }

  lemma SameBytes(a: string, b: string)
    requires |a| == |b| && forall i | 0 <= i < |a| :: a[i] == b[i]
    ensures a == b
  {
  }

  // A read of the written range returns the data.
  lemma ReadBack(content: string, off: nat, data: string)
    ensures ReadText(WriteText(content, off, data), off, |data|) == Some(data)
  {
    WriteSpec(content, off, data);
    var w := WriteText(content, off, data);
    SameBytes(w[off..off + |data|], data);
  }

  // A read inside the old file and away from the write does not see it.
  lemma ReadElsewhere(content: string, off: nat, data: string, from: nat, size: nat)
    requires from + size <= |content| && (from + size <= off || off + |data| <= from)
    ensures ReadText(WriteText(content, off, data), from, size) == ReadText(content, from, size)
  {
    WriteSpec(content, off, data);
    var w := WriteText(content, off, data);
    SameBytes(w[from..from + size], content[from..from + size]);
  }

  // Writes to disjoint ranges commute.
  lemma DisjointWritesCommute(content: string, off1: nat, d1: string, off2: nat, d2: string)
    requires off1 + |d1| <= off2
    ensures WriteText(WriteText(content, off1, d1), off2, d2) == WriteText(WriteText(content, off2, d2), off1, d1)
  {
    var a, b := WriteText(content, off1, d1), WriteText(content, off2, d2);
    WriteSpec(content, off1, d1);
    WriteSpec(content, off2, d2);
    WriteSpec(a, off2, d2);
    WriteSpec(b, off1, d1);
    SameBytes(WriteText(a, off2, d2), WriteText(b, off1, d1));
  }

  // The driver: grow by writing zeros at the end, shrink by cutting the difference.
  function Resize(content: string, size: nat): Option<string> {
    if size > |content| then Some(WriteText(content, |content|, Zeros(size - |content|)))
    else TruncateText(content, |content| - size)
  }

  // The driver hits the requested size exactly, keeps the common part and pads with zeros.
  lemma ResizeExact(content: string, size: nat)
    ensures Resize(content, size).Some?
    ensures |Resize(content, size).value| == size
    ensures forall i | 0 <= i < size :: Resize(content, size).value[i] == if i < |content| then content[i] else NUL
  {
    if size > |content| {
      WriteSpec(content, |content|, Zeros(size - |content|));
    }
  }

  // Called on its own, truncate reaches a size equal to its argument iff the
  // file is exactly twice that long.
  lemma TruncateReachesArgumentIff(content: string, n: nat)
    ensures TruncateText(content, n).Some? && |TruncateText(content, n).value| == n <==> |content| == 2 * n
  {
  }
}
