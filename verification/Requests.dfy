/** Any mix of seeks and reads: the cache is invisible. */
module Requests {
  import opened Bytes
  import opened CachedReading

  datatype Request = Seek(pos: nat) | Tell | NextByte | Range(pos: nat, size: nat)
  datatype Reply = Done | Told(pos: int) | Byte(value: byte) | EndOfFile | Bytes(data: seq<byte>)

  predicate InBounds(f: seq<byte>, request: Request) {
    match request
    case Seek(pos) => pos <= |f|
    case Range(pos, size) => pos + size <= |f|
    case _ => true
  }

  /** The reply of an array of bytes read at `at`, and where reading goes on. */
  function ReplyOf(f: seq<byte>, at: nat, request: Request): (r: (Reply, nat))
    requires at <= |f| && InBounds(f, request)
    ensures r.1 <= |f|
  {
    match request
    case Seek(pos) => (Done, pos)
    case Tell => (Told(at - 1), at)
    case NextByte => if at < |f| then (Byte(f[at]), at + 1) else (EndOfFile, at)
    case Range(pos, size) => (Bytes(f[pos..pos + size]), pos + size)
  }

  function Replies(f: seq<byte>, at: nat, requests: seq<Request>): seq<Reply>
    requires at <= |f| && forall i | 0 <= i < |requests| :: InBounds(f, requests[i])
    decreases |requests|
  {
    if requests == [] then []
    else
      var (reply, next) := ReplyOf(f, at, requests[0]);
      [reply] + Replies(f, next, requests[1..])
  }

  method AnswerOne(disk: CachedFile, request: Request) returns (reply: Reply)
    requires disk.Ready() && InBounds(disk.file, request)
    modifies disk
    ensures disk.Ready() && (reply, disk.at) == ReplyOf(disk.file, old(disk.at), request)
  {
    match request {
      case Seek(pos) =>
        disk.SafeSeek(pos);
        reply := Done;
      case Tell =>
        var pos := disk.SafeTell();
        reply := Told(pos);
      case NextByte =>
        var got, byte := disk.ReadByte();
        reply := if got then Byte(byte) else EndOfFile;
      case Range(pos, size) =>
        var target := new byte[size];
        disk.ReadBytes(target, size, pos);
        assert target[..size] == target[..];
        reply := Bytes(target[..]);
    }
  }

  /** Plain or cached, and through any evictions, every request is answered as by an array of bytes. */
  method Answer(disk: CachedFile, requests: seq<Request>) returns (replies: seq<Reply>)
    requires disk.Ready() && forall i | 0 <= i < |requests| :: InBounds(disk.file, requests[i])
    modifies disk
    ensures replies == Replies(disk.file, old(disk.at), requests)
  {
    replies := [];
    var i := 0;
    while i < |requests|
      invariant disk.Ready() && i <= |requests|
      invariant replies + Replies(disk.file, disk.at, requests[i..]) == Replies(disk.file, old(disk.at), requests)
    {
      assert requests[i..][1..] == requests[i + 1..];
      var reply := AnswerOne(disk, requests[i]);
      replies := replies + [reply];
      i := i + 1;
    }
  }
}
