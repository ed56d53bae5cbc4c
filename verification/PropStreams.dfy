/** PropStream reads a block of memory from front to back; PropWriteStream builds one in a buffer that grows. */
module PropStreams {
  import opened Bytes
  import opened PropBytes

  /** std::string from a C string. */
  method CString(str: seq<byte>) returns (value: seq<byte>)
    ensures value == UpToZero(str)
  {
    value := [];
    var i := 0;
    while i < |str| && str[i] != 0
      invariant i <= |str| && value == str[..i] && UpToZero(str) == value + UpToZero(str[i..])
    {
      assert str[i..][1..] == str[i + 1..];
      value := value + [str[i]];
      i := i + 1;
    }
  }

  class PropStream {
    const data: seq<byte>
    var p: nat

    constructor (data: seq<byte>)
      ensures this.data == data && p == 0
    {
      this.data, p := data, 0;
    }

    predicate Valid()
      reads this
    {
      p <= |data|
    }

    /** GET_VALUE of a type of n bytes: all of them, or none and no step forward. */
    method GetValue(n: nat) returns (ok: bool, image: seq<byte>)
      requires Valid()
      modifies this
      ensures Valid() && (ok <==> Has(data, old(p), n))
      ensures ok ==> image == Part(data, old(p), n) && p == old(p) + n
      ensures !ok ==> p == old(p)
    {
      ok, image := false, [];
      if |data| - p < n { return; }
      image := data[p..p + n];
      p := p + n;
      ok := true;
    }

    method GetUchar() returns (ok: bool, value: byte)
      requires Valid()
      modifies this
      ensures Valid() && (ok <==> old(p) < |data|)
      ensures ok ==> value == data[old(p)] && p == old(p) + 1
      ensures !ok ==> p == old(p)
    {
      var image;
      ok, image := GetValue(1);
      value := if ok then image[0] else 0;
    }

    method GetUlong() returns (ok: bool, value: word)
      requires Valid()
      modifies this
      ensures Valid() && (ok <==> Has(data, old(p), 4))
      ensures ok ==> value == Un32(Part(data, old(p), 4)) && p == old(p) + 4
      ensures !ok ==> p == old(p)
    {
      var image;
      ok, image := GetValue(4);
      value := if ok then Un32(image) else 0;
    }

    method GetUshort() returns (ok: bool, value: half)
      requires Valid()
      modifies this
      ensures Valid() && (ok <==> Has(data, old(p), 2))
      ensures ok ==> value == Un16(Part(data, old(p), 2)) && p == old(p) + 2
      ensures !ok ==> p == old(p)
    {
      var image;
      ok, image := GetValue(2);
      value := if ok then Un16(image) else 0;
    }

    /** GET_STRING; a length that runs past the end leaves the two bytes of the length read. */
    method GetStringValue() returns (ok: bool, value: seq<byte>)
      requires Valid()
      modifies this
      ensures Valid() && (ok <==> GetString(data, old(p)).StringRead?)
      ensures ok ==> StringRead(value, p) == GetString(data, old(p))
      ensures !ok ==> p == old(p) + if Has(data, old(p), 2) then 2 else 0
    {
      value := [];
      var len;
      ok, len := GetUshort();
      if !ok { return; }
      if |data| - p < len { return false, value; }
      value := CString(data[p..p + len]);
      p := p + len;
    }
  }

  lemma NothingYet(front: seq<byte>, image: seq<byte>)
    ensures front + image[..0] == front
  {
  }

  lemma OneMore(front: seq<byte>, image: seq<byte>, i: nat)
    requires i < |image|
    ensures front + image[..i] + [image[i]] == front + image[..i + 1]
  {
    assert image[..i + 1] == image[..i] + [image[i]];
  }

  lemma AllOfIt(image: seq<byte>)
    ensures image[..|image|] == image
  {
  }

  class PropWriteStream {
    var buffer: array<byte>
    var size: nat

    ghost predicate Valid()
      reads this
    {
      size <= buffer.Length && buffer.Length % 32 == 0
    }

    ghost function Contents(): seq<byte>
      reads this, buffer
      requires Valid()
    {
      buffer[..size]
    }

    constructor ()
      ensures Valid() && fresh(buffer) && Contents() == []
    {
      buffer := new byte[32](_ => 0);
      size := 0;
    }

    /** Room for n more bytes; what the buffer grows by is n rounded up to 32. */
    method EnsureCapacity(n: nat)
      requires Valid()
      modifies `buffer
      ensures Valid() && Contents() == old(Contents()) && buffer.Length - size >= n
      ensures buffer == old(buffer) || fresh(buffer)
      ensures old(buffer.Length) - size >= n ==> buffer == old(buffer)
    {
      if buffer.Length - size < n {
        var newSize := buffer.Length + (n + 0x1F) / 32 * 32;
        assert (n + 0x1F) / 32 * 32 >= n;
        var newBuffer := new byte[newSize](_ => 0);
        for i := 0 to size
          invariant buffer == old(buffer) && newBuffer[..i] == buffer[..i]
        {
          newBuffer[i] := buffer[i];
        }
        buffer := newBuffer;
      }
    }

    /** ADD_VALUE of a value with that image. */
    method AddValue(image: seq<byte>)
      requires Valid()
      modifies this, buffer
      ensures Valid() && Contents() == old(Contents()) + image
      ensures buffer == old(buffer) || fresh(buffer)
    {
      ghost var front := Contents();
      EnsureCapacity(|image|);
      NothingYet(front, image);
      for i := 0 to |image|
        invariant size == |front| && buffer.Length - size >= |image| && buffer.Length % 32 == 0
        invariant buffer[..size + i] == front + image[..i]
        invariant buffer == old(buffer) || fresh(buffer)
      {
        OneMore(front, image, i);
        buffer[size + i] := image[i];
        assert buffer[..size + i + 1] == buffer[..size + i] + [image[i]];
      }
      AllOfIt(image);
      size := size + |image|;
    }

    method AddUchar(value: byte)
      requires Valid()
      modifies this, buffer
      ensures Valid() && Contents() == old(Contents()) + [value]
      ensures buffer == old(buffer) || fresh(buffer)
    {
      AddValue([value]);
    }

    method AddUlong(value: word)
      requires Valid()
      modifies this, buffer
      ensures Valid() && Contents() == old(Contents()) + Le32(value)
      ensures buffer == old(buffer) || fresh(buffer)
    {
      AddValue(Le32(value));
    }

    method AddString(value: seq<byte>)
      requires Valid()
      modifies this, buffer
      ensures Valid() && Contents() == old(Contents()) + PutString(value)
      ensures buffer == old(buffer) || fresh(buffer)
    {
      var len: half := |value| % 0x1_0000;
      AddValue(Le16(len));
      AddValue(value[..len]);
    }
  }
}
