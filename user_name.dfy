/**
 * `encode_name`: the character buffer built for a user's display name.
 *
 * A Rust `&str` is UTF-8; here a name is its sequence of Unicode scalar
 * values (Dafny's `char`), and `name.len()` is the UTF-8 byte length of
 * those characters.
 */
module UserName {
  import opened Wrappers

  const MAX_NAME_LENGTH: nat := 32
  const DEFAULT_USER_NAME: string := "Main Account"

  /** Number of bytes UTF-8 uses for `c`. */
  function Utf8Width(c: char): (w: nat)
    ensures 1 <= w <= 4
    ensures w == 1 <==> c as int < 0x80
  {
    if c as int < 0x80 then 1
    else if c as int < 0x800 then 2
    else if c as int < 0x1_0000 then 3
    else 4
  }

  /** `str::len`: the UTF-8 byte length. */
  function ByteLen(s: string): nat {
    if |s| == 0 then 0 else Utf8Width(s[0]) + ByteLen(s[1..])
  }

  predicate IsAscii(s: string) {
    forall i :: 0 <= i < |s| ==> s[i] as int < 0x80
  }

  function Spaces(n: nat): (r: string)
    ensures |r| == n && forall i :: 0 <= i < n ==> r[i] == ' '
  {
    seq(n, i => ' ')
  }

  /** A name has at least as many bytes as characters, and exactly as many when it is ASCII. */
  lemma {:induction false} ByteLenBounds(s: string)
    ensures |s| <= ByteLen(s) <= 4 * |s|
    ensures ByteLen(s) == |s| <==> IsAscii(s)
  {
    if |s| > 0 {
      ByteLenBounds(s[1..]);
      if IsAscii(s[1..]) && s[0] as int < 0x80 {
        assert IsAscii(s) by {
          forall i | 0 <= i < |s| ensures s[i] as int < 0x80 {
            if i > 0 { assert s[i] == s[1..][i - 1]; }
          }
        }
      }
      if IsAscii(s) {
        assert IsAscii(s[1..]) by {
          forall i | 0 <= i < |s| - 1 ensures s[1..][i] as int < 0x80 {
            assert s[1..][i] == s[i + 1];
          }
        }
      }
    }
  }

  lemma {:induction false} ByteLenAppend(a: string, b: string)
    ensures ByteLen(a + b) == ByteLen(a) + ByteLen(b)
  {
    if |a| > 0 {
      assert (a + b)[1..] == a[1..] + b;
      ByteLenAppend(a[1..], b);
    } else {
      assert a + b == b;
    }
  }

  /** What `encode_name` returns: an error for a name of more than 32 bytes, otherwise the name followed by one space per byte. */
  function EncodedName(name: string): Result<seq<char>> {
    if ByteLen(name) > MAX_NAME_LENGTH then Err
    else Ok(name + Spaces(ByteLen(name)))
  }

  /** `encode_name`: the two loops of the source, growing one buffer. */
  method EncodeName(name: string) returns (r: Result<seq<char>>)
    ensures r == EncodedName(name)
  {
    var len := ByteLen(name);
    if len > MAX_NAME_LENGTH {
      return Err;
    }
    var buffer: seq<char> := [];
    for i := 0 to |name|
      invariant buffer == name[..i]
    {
      buffer := buffer + [name[i]];
    }
    for k := 0 to len
      invariant buffer == name + Spaces(k)
    {
      buffer := buffer + [' '];
    }
    return Ok(buffer);
  }

  /** The bound is on bytes and is inclusive: exactly the names of at most 32 bytes are encoded. */
  lemma EncodedNameAccepts(name: string)
    ensures EncodedName(name).Ok? <==> ByteLen(name) <= MAX_NAME_LENGTH
  {
  }

  /**
   * An accepted name comes first, character for character, then exactly
   * `name.len()` spaces; cutting those spaces off gives the name back.
   */
  lemma EncodedNameLayout(name: string)
    requires ByteLen(name) <= MAX_NAME_LENGTH
    ensures var v := EncodedName(name).value;
      && |v| == |name| + ByteLen(name)
      && v[..|name|] == name
      && (forall i :: |name| <= i < |v| ==> v[i] == ' ')
      && v[..|v| - ByteLen(name)] == name
  {
  }

  /** For an ASCII name the buffer is twice the name's length: its size follows the name, not the 32-byte slot. */
  lemma EncodedAsciiNameDoubles(name: string)
    requires IsAscii(name) && |name| <= MAX_NAME_LENGTH
    ensures EncodedName(name).Ok? && |EncodedName(name).value| == 2 * |name|
  {
    ByteLenBounds(name);
  }

  /** A non-ASCII name gets more spaces than it has characters. */
  lemma EncodedNonAsciiName(name: string)
    requires !IsAscii(name) && ByteLen(name) <= MAX_NAME_LENGTH
    ensures |EncodedName(name).value| > 2 * |name|
  {
    ByteLenBounds(name);
  }

  /** The edge cases: the empty name encodes to nothing, and a 32-byte name is accepted (into 64 characters). */
  lemma EncodedNameEdges()
    ensures EncodedName("") == Ok([])
    ensures var name := seq(32, i => 'a');
      EncodedName(name).Ok? && |EncodedName(name).value| == 64
    ensures EncodedName(seq(33, i => 'a')).Err?
  {
    assert "" + Spaces(0) == [];
    var name := seq(32, i => 'a');
    ByteLenBounds(name);
    ByteLenBounds(seq(33, i => 'a'));
  }

  // ---------------------------------------------------------------------------
  // Decoding by trimming trailing spaces
  // ---------------------------------------------------------------------------

  function TrimTrailingSpaces(s: string): (r: string)
    ensures r <= s && (|r| == 0 || r[|r| - 1] != ' ')
    ensures forall i :: |r| <= i < |s| ==> s[i] == ' '
  {
    if |s| == 0 || s[|s| - 1] != ' ' then s
    else TrimTrailingSpaces(s[..|s| - 1])
  }

  lemma {:induction false} TrimSpacesOff(s: string, n: nat)
    requires |s| == 0 || s[|s| - 1] != ' '
    ensures TrimTrailingSpaces(s + Spaces(n)) == s
  {
    if n > 0 {
      assert (s + Spaces(n))[..|s| + n - 1] == s + Spaces(n - 1);
      TrimSpacesOff(s, n - 1);
    } else {
      assert s + Spaces(0) == s;
    }
  }

  /** Trimming the trailing spaces off an encoded name gives back the name, unless the name itself ends in a space. */
  lemma EncodedNameTrimRoundTrip(name: string)
    requires ByteLen(name) <= MAX_NAME_LENGTH
    requires |name| == 0 || name[|name| - 1] != ' '
    ensures TrimTrailingSpaces(EncodedName(name).value) == name
  {
    TrimSpacesOff(name, ByteLen(name));
  }

  // ---------------------------------------------------------------------------
  // The 32-byte slot the name field occupies
  // ---------------------------------------------------------------------------

  /**
   * The default user name is encoded into 24 characters, not into the
   * 32-byte slot the buffer's capacity and the name field are sized for.
   */
  lemma EncodedNameNotFixedWidth()
    ensures EncodedName(DEFAULT_USER_NAME) == Ok(DEFAULT_USER_NAME + Spaces(12))
    ensures |EncodedName(DEFAULT_USER_NAME).value| == 24
  {
    ByteLenBounds(DEFAULT_USER_NAME);
  }

  /** The name left-packed into a 32-byte slot, padded with spaces up to 32 bytes. */
  function FixedSlotName(name: string): Result<seq<char>> {
    if ByteLen(name) > MAX_NAME_LENGTH then Err
    else Ok(name + Spaces(MAX_NAME_LENGTH - ByteLen(name)))
  }

  /** The fixed-slot encoder: the same two loops, padding to 32 bytes. */
  method EncodeNameFixed(name: string) returns (r: Result<seq<char>>)
    ensures r == FixedSlotName(name)
  {
    var len := ByteLen(name);
    if len > MAX_NAME_LENGTH {
      return Err;
    }
    var buffer: seq<char> := [];
    for i := 0 to |name|
      invariant buffer == name[..i]
    {
      buffer := buffer + [name[i]];
    }
    for k := 0 to MAX_NAME_LENGTH - len
      invariant buffer == name + Spaces(k)
    {
      buffer := buffer + [' '];
    }
    return Ok(buffer);
  }

  lemma {:induction false} SpacesByteLen(n: nat)
    ensures ByteLen(Spaces(n)) == n
  {
    if n > 0 {
      assert Spaces(n)[1..] == Spaces(n - 1);
      SpacesByteLen(n - 1);
    }
  }

  /**
   * Every accepted name fills exactly the 32 bytes of the slot, starts with
   * the name, and trims back to it (unless it ends in a space).
   */
  lemma FixedSlotNameFills(name: string)
    requires ByteLen(name) <= MAX_NAME_LENGTH
    ensures var v := FixedSlotName(name).value;
      && ByteLen(v) == MAX_NAME_LENGTH
      && v[..|name|] == name
      && (forall i :: |name| <= i < |v| ==> v[i] == ' ')
    ensures |name| == 0 || name[|name| - 1] != ' ' ==> TrimTrailingSpaces(FixedSlotName(name).value) == name
  {
    var pad := MAX_NAME_LENGTH - ByteLen(name);
    ByteLenAppend(name, Spaces(pad));
    SpacesByteLen(pad);
    if |name| == 0 || name[|name| - 1] != ' ' {
      TrimSpacesOff(name, pad);
    }
  }
}
