/**
 * NUL-terminated character buffers as the command handler uses them: strlen, the C string a
 * buffer holds, and the two steps the handler applies to a fixed-size buffer when a message
 * arrives (clear, then copy the received bytes in).
 */
module CStrings {

  const NUL: char := '\0'

  /** strlen: the index of the first NUL. Defined only when the buffer holds one; reading a
      buffer without a NUL runs past its end. */
  function Strlen(s: seq<char>): (n: nat)
    requires NUL in s
    ensures n < |s| && s[n] == NUL
    ensures forall k :: 0 <= k < n ==> s[k] != NUL
    decreases |s|
  {
    if s[0] == NUL then 0 else 1 + Strlen(s[1..])
  }

  /** The C string that a byte sequence denotes for strcmp, regexec and strcpy: everything
      before its first NUL, or all of it when it has none. */
  function UpToNul(s: seq<char>): (r: seq<char>)
    ensures |r| <= |s| && r == s[..|r|]
    ensures NUL !in r
    ensures |r| < |s| ==> s[|r|] == NUL
  {
    if NUL in s then s[..Strlen(s)] else s
  }

  /** A buffer holding a C string followed only by NULs, as a zero-initialised global
      buffer does and keeps doing while the handler receives NUL-free messages. */
  predicate Terminated(buf: seq<char>) {
    NUL in buf && forall k :: Strlen(buf) <= k < |buf| ==> buf[k] == NUL
  }

  function Zeros(n: nat): (z: seq<char>)
    ensures |z| == n && forall k :: 0 <= k < n ==> z[k] == NUL
    ensures n > 0 ==> NUL in z
  {
    var z := seq(n, _ => NUL);
    assert n > 0 ==> z[0] == NUL;
    z
  }

  /** memset(buf, 0, strlen(buf)): only the bytes before the first NUL are cleared. */
  function ClearToStrlen(buf: seq<char>): (r: seq<char>)
    requires NUL in buf
    ensures |r| == |buf|
    ensures forall k :: 0 <= k < Strlen(buf) ==> r[k] == NUL
    ensures r[Strlen(buf)..] == buf[Strlen(buf)..]
  {
    Zeros(Strlen(buf)) + buf[Strlen(buf)..]
  }

  /** The copy loop: the first |bytes| positions take the received bytes. */
  function CopyIn(buf: seq<char>, bytes: seq<char>): (r: seq<char>)
    requires |bytes| <= |buf|
    ensures |r| == |buf| && r[..|bytes|] == bytes && r[|bytes|..] == buf[|bytes|..]
  {
    bytes + buf[|bytes|..]
  }

  /** A message arriving into a buffer, as the handler is written: clear up to strlen, copy. */
  function ReceiveAsWritten(buf: seq<char>, bytes: seq<char>): (r: seq<char>)
    requires NUL in buf && |bytes| <= |buf|
    ensures |r| == |buf|
  {
    CopyIn(ClearToStrlen(buf), bytes)
  }

  /** A message arriving into a buffer of `size` bytes that is cleared whole first. */
  function ReceiveCleared(size: nat, bytes: seq<char>): (r: seq<char>)
    requires |bytes| <= size
    ensures |r| == size
  {
    bytes + Zeros(size - |bytes|)
  }

  /** Clearing a terminated buffer up to strlen clears all of it. */
  lemma ClearTerminated(buf: seq<char>)
    requires Terminated(buf)
    ensures ClearToStrlen(buf) == Zeros(|buf|)
  {
    var r := ClearToStrlen(buf);
    forall k | 0 <= k < |buf| ensures r[k] == NUL {
      if k >= Strlen(buf) {
        assert r[k] == buf[k];
      }
    }
  }

  /** On a terminated buffer with room for the message and its terminator, the handler's
      clear-and-copy leaves exactly the received bytes followed by NULs. */
  lemma ReceiveIntoTerminated(buf: seq<char>, bytes: seq<char>)
    requires Terminated(buf) && |bytes| < |buf|
    ensures ReceiveAsWritten(buf, bytes) == ReceiveCleared(|buf|, bytes)
  {
    ClearTerminated(buf);
    assert Zeros(|buf|)[|bytes|..] == Zeros(|buf| - |bytes|);
  }

  /** After a whole-buffer clear, the buffer holds a NUL and its C string is the C string of
      the received bytes, whatever the buffer held before; NUL-free bytes keep it terminated. */
  lemma ReceivedString(size: nat, bytes: seq<char>)
    requires |bytes| < size
    ensures NUL in ReceiveCleared(size, bytes)
    ensures UpToNul(ReceiveCleared(size, bytes)) == UpToNul(bytes)
    ensures NUL !in bytes ==> Terminated(ReceiveCleared(size, bytes)) && Strlen(ReceiveCleared(size, bytes)) == |bytes|
  {
    var r := ReceiveCleared(size, bytes);
    assert r[|bytes|] == NUL;
    var u := UpToNul(bytes);
    if |u| < |bytes| {
      assert r[|u|] == NUL;
      StrlenAt(r, |u|);
    } else {
      StrlenAt(r, |bytes|);
    }
    assert r[..|u|] == bytes[..|u|];
  }

  /** A message shorter than the buffer never reaches its last byte, and the strlen clear
      only writes NULs, so a buffer ending in NUL keeps ending in NUL whatever it held; a
      clean buffer takes exactly the message, and a NUL-free message leaves it clean. */
  lemma ReceiveIntoBuffer(buf: seq<char>, bytes: seq<char>)
    requires 0 < |buf| && buf[|buf| - 1] == NUL && |bytes| < |buf|
    ensures NUL in buf
    ensures ReceiveAsWritten(buf, bytes)[|buf| - 1] == NUL
    ensures Terminated(buf) ==>
      && ReceiveAsWritten(buf, bytes) == ReceiveCleared(|buf|, bytes)
      && UpToNul(ReceiveAsWritten(buf, bytes)) == UpToNul(bytes)
    ensures Terminated(buf) && NUL !in bytes ==> Terminated(ReceiveAsWritten(buf, bytes))
  {
    assert buf[|buf| - 1] == NUL;
    var cleared := ClearToStrlen(buf);
    assert cleared[|buf| - 1] == NUL by {
      var n := Strlen(buf);
      if |buf| - 1 >= n {
        assert cleared[|buf| - 1] == buf[|buf| - 1];
      }
    }
    if Terminated(buf) {
      ReceiveIntoTerminated(buf, bytes);
      ReceivedString(|buf|, bytes);
    }
  }

  /** A NUL before which there is none is where strlen stops. */
  lemma StrlenAt(s: seq<char>, n: nat)
    requires n < |s| && s[n] == NUL
    requires forall k :: 0 <= k < n ==> s[k] != NUL
    ensures Strlen(s) == n
  {
  }

  /** As written, bytes that follow an embedded NUL in one message survive into the next: a
      message "ab", NUL, "5" and then a message "12." leave the C string "12.5" in the
      buffer, although the second message's own text is "12.". */
  lemma StaleBytesAfterEmbeddedNul()
    ensures var first := ReceiveAsWritten(Zeros(30), ['a', 'b', NUL, '5']);
      var second := ReceiveAsWritten(first, "12.");
      UpToNul(second) == "12.5" && UpToNul("12.") == "12."
  {
    var z26 := Zeros(26);
    var msg := ['a', 'b', NUL, '5'];
    StrlenAt(Zeros(30), 0);
    assert ClearToStrlen(Zeros(30)) == Zeros(0) + Zeros(30)[0..];
    var first := ReceiveAsWritten(Zeros(30), msg);
    assert first == msg + Zeros(30)[4..];
    assert Zeros(30)[4..] == z26;
    StrlenAt(first, 2);
    var tail := [NUL, '5'] + z26;
    assert first[2..] == tail;
    var cleared := ClearToStrlen(first);
    assert cleared == Zeros(2) + tail;
    assert cleared[3..] == ['5'] + z26;
    var second := ReceiveAsWritten(first, "12.");
    assert second == "12." + cleared[3..];
    assert second == "12.5" + z26;
    StrlenAt(second, 4);
    assert second[..4] == "12.5";
  }
}
