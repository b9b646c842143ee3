/** NUL-terminated byte strings as the examples receive them: the bytes from
    the pointer onward, of which the text is the part before the first zero. */
module CString {
  import opened Usb

  /** Index of the terminating zero byte. */
  function FirstNul(s: seq<Byte>): (k: nat)
    requires 0 in s
    ensures k < |s| && s[k] == 0
    ensures forall j :: 0 <= j < k ==> s[j] != 0
  {
    if s[0] == 0 then 0 else 1 + FirstNul(s[1..])
  }

  /** The text a `while(*p)` loop walks over. */
  function Text(s: seq<Byte>): (t: seq<Byte>)
    requires 0 in s
    ensures 0 !in t
    ensures t + [0] <= s
  {
    s[..FirstNul(s)]
  }
}
