/**
 The file hashing of src/sup/sup.c and the chunked loop of the self test in src/sup/sha256.c.
 */
module Sup {
  import opened Fips180
  import opened ShaContext
  import opened Wrappers

  datatype Outcome = Error(reason: string) | Digest(size: nat, bytes: seq<Byte>)

  /**
   What fopen and fread can see of a file: whether it opens, its bytes, and the offset at which
   reading fails, if it does.
   */
  datatype File = File(opens: bool, data: seq<Byte>, failsAt: Option<nat>)

  /** The bytes that can be read before the end of the file or the failure. */
  function Readable(f: File): seq<Byte> {
    if f.failsAt.Some? && f.failsAt.value < |f.data| then f.data[..f.failsAt.value] else f.data
  }

  /** ferror after a short read. */
  predicate Fails(f: File) { f.failsAt.Some? && f.failsAt.value < |f.data| }

  lemma ReadableIs(f: File)
    ensures |Readable(f)| <= |f.data| && (!Fails(f) ==> Readable(f) == f.data)
  {}

  /** fread into the whole buffer: a short count means the end of the file or a failure. */
  method Fread(buf: array<Byte>, f: File, pos: nat) returns (len: nat)
    requires pos <= |Readable(f)|
    modifies buf
    ensures len == if |Readable(f)| - pos < buf.Length then |Readable(f)| - pos else buf.Length
    ensures buf[..len] == Readable(f)[pos..pos + len]
  {
    len := if |Readable(f)| - pos < buf.Length then |Readable(f)| - pos else buf.Length;
    forall i | 0 <= i < len {
      buf[i] := Readable(f)[pos + i];
    }
  }

  /**
   getsha.  Every byte of the file is hashed exactly once, whatever its size, multiples of the
   buffer size included, and the size returned is the size of the file.
   */
  method GetSha(f: File) returns (r: Outcome)
    requires |f.data| < 0x2000_0000_0000_0000
    ensures !f.opens ==> r == Error("fopen")
    ensures f.opens && Fails(f) ==> r == Error("fread")
    ensures f.opens && !Fails(f) ==> r == Digest(|f.data|, Sha256(f.data))
  {
    hide *;
    if !f.opens {
      return Error("fopen");
    }
    var sha := new Context();
    var buf := new Byte[1048576](_ => Byte(0));
    sha.Starts();
    var len, tot := 0, 0;
    ghost var all := Readable(f);
    ReadableIs(f);
    while true
      invariant sha.Valid() && fresh(sha) && fresh(sha.buffer) && buf != sha.buffer
      invariant tot <= |all| && sha.message == all[..tot]
      decreases |all| - tot
    {
      len := Fread(buf, f, tot);
      if len == 0 {
        break;
      }
      tot := tot + len;
      if len < 1048576 {
        break;
      }
      sha.Update(buf[..len]);
      assert sha.message == all[..tot];
    }
    if Fails(f) {
      return Error("fread");
    }
    if len > 0 {
      sha.Update(buf[..len]);
    }
    assert sha.message == all;
    var digest := sha.Finish();
    return Digest(tot, digest);
  }

  function Flatten(pieces: seq<seq<Byte>>): seq<Byte> {
    if pieces == [] then [] else Flatten(pieces[..|pieces| - 1]) + pieces[|pieces| - 1]
  }

  /** Whatever the pieces a message arrives in, the digest is that of the whole message. */
  method HashPieces(pieces: seq<seq<Byte>>) returns (digest: seq<Byte>)
    requires |Flatten(pieces)| < 0x2000_0000_0000_0000
    requires forall p :: p in pieces ==> |p| <= 0x1_0000_0000
    ensures digest == Sha256(Flatten(pieces))
  {
    hide *;
    var sha := new Context();
    sha.Starts();
    var i := 0;
    FlattenPrefix(pieces, 0);
    while i < |pieces|
      invariant i <= |pieces|
      invariant sha.Valid() && fresh(sha) && fresh(sha.buffer)
      invariant sha.message == Flatten(pieces[..i])
    {
      FlattenPrefix(pieces, i + 1);
      sha.Update(pieces[i]);
      i := i + 1;
    }
    assert pieces[..i] == pieces;
    digest := sha.Finish();
  }

  lemma {:induction false} FlattenPrefix(pieces: seq<seq<Byte>>, n: nat)
    requires n <= |pieces|
    ensures |Flatten(pieces[..n])| <= |Flatten(pieces)|
    ensures n == 0 ==> Flatten(pieces[..n]) == []
    ensures n > 0 ==> Flatten(pieces[..n]) == Flatten(pieces[..n - 1]) + pieces[n - 1]
    decreases |pieces| - n
  {
    if n > 0 {
      assert pieces[..n][..n - 1] == pieces[..n - 1];
    }
    if n < |pieces| {
      FlattenPrefix(pieces, n + 1);
    } else {
      assert pieces[..n] == pieces;
    }
  }
}
