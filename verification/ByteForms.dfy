/** Bytes as numbers and as bit-vectors: the header scanner works on the latter. */
module ByteForms {
  import opened Octets
  import opened Swar

  function ToBytes(s: seq<octet>): (r: seq<byte>)
    ensures |r| == |s| && forall i :: 0 <= i < |s| ==> r[i] == s[i] as byte
  {
    if s == [] then [] else ToBytes(s[..|s| - 1]) + [s[|s| - 1] as byte]
  }

  function ToOctets(s: seq<byte>): (r: seq<octet>)
    ensures |r| == |s|
  {
    if s == [] then [] else ToOctets(s[..|s| - 1]) + [s[|s| - 1] as int]
  }

  lemma LineFeedIs(x: octet)
    requires x as byte == 10
    ensures x == 10
  {
  }

  lemma SpaceIs(x: octet)
    requires x as byte == 32
    ensures x == 32
  {
  }

  lemma TabIs(x: octet)
    requires x as byte == 9
    ensures x == 9
  {
  }
}
