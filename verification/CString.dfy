/** Zero-terminated strings held in character buffers. */
module CString {

  /** The string a buffer holds: everything before its first '\0'. */
  function CStr(buf: seq<char>): (s: string)
    ensures |s| <= |buf| && s == buf[..|s|]
    ensures '\0' !in s
    ensures |s| < |buf| ==> buf[|s|] == '\0'
    ensures '\0' in buf ==> |s| < |buf|
  {
    if buf == [] || buf[0] == '\0' then [] else [buf[0]] + CStr(buf[1..])
  }

  lemma CStrIs(buf: seq<char>, k: nat)
    requires k < |buf| && buf[k] == '\0' && '\0' !in buf[..k]
    ensures CStr(buf) == buf[..k]
  {
    if k > 0 {
      assert buf[..k][0] == buf[0];
      assert buf[1..][..k - 1] == buf[..k][1..];
      CStrIs(buf[1..], k - 1);
    }
  }
}
