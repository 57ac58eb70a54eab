/**
 * One iteration of the example's tap poll loop, as the C code runs it: each
 * report line is formatted into the static 1000-byte transmit buffer by a
 * sprintf that writes the prefix and sign word, one sprintf per set axis and
 * one for the terminator, and then strlen(buffer) bytes are transmitted.
 */
module PollLoop {
  import opened TapReport

  /**
   * The static transmit buffer. Text is the NUL-terminated C string it
   * currently holds; the bytes after the NUL are left as they were.
   */
  class TxBuffer {
    const data: array<char>
    ghost var Text: string

    ghost predicate Valid()
      reads this, data
    {
      data.Length == TxBufferSize
      && |Text| < data.Length
      && data[..|Text|] == Text
      && data[|Text|] == Nul
      && Nul !in Text
    }

    /** A zero-initialised static buffer holds the empty string. */
    constructor ()
      ensures Valid() && fresh(data) && Text == []
    {
      data := new char[TxBufferSize](_ => Nul);
      Text := [];
    }

    /** sprintf(buffer, format, ...) whose formatted output is `s`: the buffer now holds `s`. */
    method Print(s: string)
      requires Valid()
      requires |s| < data.Length && Nul !in s
      modifies this, data
      ensures Valid() && Text == s
    {
      forall i | 0 <= i < |s| {
        data[i] := s[i];
      }
      data[|s|] := Nul;
      Text := s;
    }

    /**
     * sprintf(buffer, "%s<suffix>", buffer): the buffer is both destination
     * and source. That overlap is undefined behaviour in C; this models the
     * evident intent, appending `suffix` to the string already held.
     */
    method Append(suffix: string)
      requires Valid()
      requires |Text| + |suffix| < data.Length && Nul !in suffix
      modifies this, data
      ensures Valid() && Text == old(Text) + suffix
    {
      var n := Length();
      forall i | 0 <= i < |suffix| {
        data[n + i] := suffix[i];
      }
      data[n + |suffix|] := Nul;
      Text := Text + suffix;
      assert data[..|Text|] == old(data[..n]) + suffix;
    }

    /** strlen(buffer): the number of characters before the first NUL. */
    method Length() returns (n: nat)
      requires Valid()
      ensures n == |Text|
      ensures data[n] == Nul && forall k :: 0 <= k < n ==> data[k] != Nul
    {
      n := 0;
      while data[n] != Nul
        invariant n <= |Text|
        invariant forall k :: 0 <= k < n ==> data[k] != Nul
        decreases |Text| - n
      {
        n := n + 1;
      }
    }
  }

  /**
   * One branch of the loop body: format the line for `kind` into the buffer
   * and transmit strlen(buffer) characters of it, so no NUL is sent.
   */
  method EmitTapLine(buf: TxBuffer, kind: TapKind, src: TapSource) returns (sent: string)
    requires buf.Valid()
    modifies buf, buf.data
    ensures buf.Valid()
    ensures sent == Render(LineFor(kind, src)) && buf.Text == sent
    ensures |sent| <= MaxLineLength
  {
    FormatTapLine(buf, kind, src);
    RenderLength(LineFor(kind, src));
    var n := buf.Length();
    sent := buf.data[..n];
  }

  /**
   * The sprintf chain of one branch: prefix and sign word, one call per set
   * axis, then the terminator. The buffer ends up holding the line.
   */
  method FormatTapLine(buf: TxBuffer, kind: TapKind, src: TapSource)
    requires buf.Valid()
    modifies buf, buf.data
    ensures buf.Valid() && buf.Text == Render(LineFor(kind, src))
  {
    var head := Prefix(kind) + SignWord(src.tapSign);
    assert |head| <= |DoublePrefix| + 8;
    PiecesHaveNoNul(kind, src.tapSign);
    buf.Print(head);
    AppendAxes(buf, src.xTap, src.yTap, src.zTap);
    RenderLineFor(kind, src, buf.Text);
    RenderLength(LineFor(kind, src));
    buf.Append(Terminator);
  }

  /** The three conditional axis sprintf calls, in X, Y, Z order. */
  method AppendAxes(buf: TxBuffer, x: bool, y: bool, z: bool)
    requires buf.Valid() && |buf.Text| + 15 < TxBufferSize
    modifies buf, buf.data
    ensures buf.Valid() && buf.Text == old(buf.Text) + AxisPart(x, y, z)
  {
    ghost var start := buf.Text;
    AppendAxis(buf, x, 'X');
    AppendAxis(buf, y, 'Y');
    AppendAxis(buf, z, 'Z');
    Concat4(start, AxisMention(x, 'X'), AxisMention(y, 'Y'), AxisMention(z, 'Z'));
  }

  /** `if (flag) sprintf(buffer, "%s on <axis>", buffer);` */
  method AppendAxis(buf: TxBuffer, flag: bool, axis: char)
    requires buf.Valid() && |buf.Text| + 5 < TxBufferSize
    requires axis in {'X', 'Y', 'Z'}
    modifies buf, buf.data
    ensures buf.Valid() && buf.Text == old(buf.Text) + AxisMention(flag, axis)
  {
    if flag {
      buf.Append(" on " + [axis]);
    }
  }

  /**
   * One pass of the poll loop for one snapshot of the tap-source flags: the
   * double-tap line when that flag is set, then the single-tap line when
   * that flag is set. Returns the lines handed to tx_com, in order; the
   * buffer is left holding the last line formatted, or as it was.
   */
  method PollIteration(buf: TxBuffer, src: TapSource) returns (sent: seq<string>)
    requires buf.Valid()
    modifies buf, buf.data
    ensures buf.Valid()
    ensures sent == Report(src)
    ensures buf.Text == (if src.singleTap then Render(LineFor(SingleTap, src))
                         else if src.doubleTap then Render(LineFor(DoubleTap, src))
                         else old(buf.Text))
  {
    sent := [];
    if src.doubleTap {
      var line := EmitTapLine(buf, DoubleTap, src);
      sent := sent + [line];
    }
    if src.singleTap {
      var line := EmitTapLine(buf, SingleTap, src);
      sent := sent + [line];
    }
  }
}
