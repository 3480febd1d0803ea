/** The mode-string tables of pindex.py (lines 11-78) and the one test `open`
    makes on them. The source combines the lists with `|`, which Python lists
    do not support (it raises `TypeError` when the module is loaded); the
    evident intent, a combined list, is modelled as concatenation. */
module Modes {

  const OpenTextModeUpdating: seq<string> := [
    "r+", "+r", "rt+", "r+t", "+rt", "tr+", "t+r", "+tr",
    "w+", "+w", "wt+", "w+t", "+wt", "tw+", "t+w", "+tw",
    "a+", "+a", "at+", "a+t", "+at", "ta+", "t+a", "+ta",
    "x+", "+x", "xt+", "x+t", "+xt", "tx+", "t+x", "+tx"]
  const OpenTextModeWriting: seq<string> := ["w", "wt", "tw", "a", "at", "ta", "x", "xt", "tx"]
  const OpenTextModeReading: seq<string> :=
    ["r", "rt", "tr", "U", "rU", "Ur", "rtU", "rUt", "Urt", "trU", "tUr", "Utr"]
  const OpenTextMode: seq<string> := OpenTextModeUpdating + OpenTextModeWriting + OpenTextModeReading

  const OpenBinaryModeUpdating: seq<string> := [
    "rb+", "r+b", "+rb", "br+", "b+r", "+br",
    "wb+", "w+b", "+wb", "bw+", "b+w", "+bw",
    "ab+", "a+b", "+ab", "ba+", "b+a", "+ba",
    "xb+", "x+b", "+xb", "bx+", "b+x", "+bx"]
  const OpenBinaryModeWriting: seq<string> := ["wb", "bw", "ab", "ba", "xb", "bx"]
  const OpenBinaryModeReading: seq<string> := ["rb", "br", "rbU", "rUb", "Urb", "brU", "bUr", "Ubr"]
  const OpenBinaryMode: seq<string> := OpenBinaryModeUpdating + OpenBinaryModeReading + OpenBinaryModeWriting

  const OpenImplicitCreateMode: seq<string> :=
    OpenTextModeWriting + OpenTextModeUpdating + OpenBinaryModeWriting + OpenBinaryModeUpdating
  const OpenMode: seq<string> := OpenTextMode + OpenBinaryMode

  /** The condition under which `open` first creates the entry. */
  predicate IsBinaryMode(m: string) {
    m in OpenBinaryMode
  }

  predicate IsTextMode(m: string) {
    m in OpenTextMode
  }

  /** Per table: which letter each entry carries. */
  lemma TextUpdatingLacksB(m: string)
    requires m in OpenTextModeUpdating
    ensures 'b' !in m
  {
  }

  lemma TextWritingLacksB(m: string)
    requires m in OpenTextModeWriting
    ensures 'b' !in m
  {
  }

  lemma TextReadingLacksB(m: string)
    requires m in OpenTextModeReading
    ensures 'b' !in m
  {
  }

  lemma BinaryUpdatingHasB(m: string)
    requires m in OpenBinaryModeUpdating
    ensures 'b' in m
  {
  }

  lemma BinaryWritingHasB(m: string)
    requires m in OpenBinaryModeWriting
    ensures 'b' in m
  {
  }

  lemma BinaryReadingHasB(m: string)
    requires m in OpenBinaryModeReading
    ensures 'b' in m
  {
  }

  /** No text mode carries the letter 'b'. */
  lemma TextModesLackB(m: string)
    requires IsTextMode(m)
    ensures 'b' !in m
  {
    if m in OpenTextModeUpdating {
      TextUpdatingLacksB(m);
    } else if m in OpenTextModeWriting {
      TextWritingLacksB(m);
    } else {
      assert m in OpenTextModeReading;
      TextReadingLacksB(m);
    }
  }

  /** Every binary mode carries the letter 'b'. */
  lemma BinaryModesHaveB(m: string)
    requires IsBinaryMode(m)
    ensures 'b' in m
  {
  }

  /** Over all recognised modes, `open`'s test is exactly "the mode carries a
      'b'", and no mode is both text and binary. */
  lemma BinaryIffLetterB(m: string)
    requires m in OpenMode
    ensures IsBinaryMode(m) <==> 'b' in m
    ensures !(IsBinaryMode(m) && IsTextMode(m))
  {
    if IsBinaryMode(m) {
      BinaryModesHaveB(m);
      if IsTextMode(m) {
        TextModesLackB(m);
      }
    } else {
      assert IsTextMode(m);
      TextModesLackB(m);
    }
  }

  /** `open` creates the entry for binary read, write and update modes. */
  lemma BinaryModeExamples()
    ensures IsBinaryMode("rb") && IsBinaryMode("wb") && IsBinaryMode("r+b")
  {
  }

  /** `open` does not create the entry for text modes, writing ones included. */
  lemma TextModeExamples()
    ensures !IsBinaryMode("w") && !IsBinaryMode("r") && !IsBinaryMode("a+")
  {
    assert 'b' !in "w" && 'b' !in "r" && 'b' !in "a+";
    forall m | m in ["w", "r", "a+"] ensures !IsBinaryMode(m) {
      if IsBinaryMode(m) {
        BinaryModesHaveB(m);
      }
    }
  }

  /** The test is not the table of implicitly creating modes: "rb" passes it
      without creating, "w" creates without passing it. */
  lemma ImplicitCreateDiffers()
    ensures "rb" !in OpenImplicitCreateMode && "w" in OpenImplicitCreateMode
  {
    assert OpenImplicitCreateMode[0] == "w";
    assert "rb" !in OpenBinaryModeWriting && "rb" !in OpenBinaryModeUpdating;
    if "rb" in OpenTextModeWriting { TextWritingLacksB("rb"); }
    if "rb" in OpenTextModeUpdating { TextUpdatingLacksB("rb"); }
  }

  /** Every binary mode that implicitly creates a file passes the test. */
  lemma ImplicitCreateBinaryIsBinary(m: string)
    requires m in OpenImplicitCreateMode && 'b' in m
    ensures IsBinaryMode(m)
  {
    if m in OpenTextModeWriting {
      TextWritingLacksB(m);
    } else if m in OpenTextModeUpdating {
      TextUpdatingLacksB(m);
    } else if m in OpenBinaryModeWriting {
      assert m in OpenBinaryMode;
    } else {
      assert m in OpenBinaryModeUpdating;
      assert m in OpenBinaryMode;
    }
  }
}
