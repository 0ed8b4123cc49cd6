/**
 What is wrong with a payload that is refused: a payload cut short is truncated, one with bytes to spare
 is invalid, and no other error arises from the length of a payload.
 */
module PayloadErrors {
  import opened Results
  import opened Bytes
  import opened Utf8
  import opened Messages
  import opened Codec

  /**
   `r` is what a parser says of some bytes and `s` what it says of them with `more` after them: a value
   is read the same and leaves `more` behind, and an error other than running out of bytes stays.
   */
  ghost predicate Stable<T>(r: Parsed<T>, s: Parsed<T>, more: seq<byte>) {
    && (r.Ok? ==> s == Ok((r.value.0, r.value.1 + more)))
    && (r.Err? && r.error != Truncated ==> s == Err(r.error))
  }

  lemma TakeStable(c: seq<byte>, n: nat, more: seq<byte>)
    ensures Stable(Take(c, n), Take(c + more, n), more)
  {
    if n <= |c| {
      assert (c + more)[..n] == c[..n] && (c + more)[n..] == c[n..] + more;
    }
  }

  lemma U8Stable(c: seq<byte>, more: seq<byte>)
    ensures Stable(ReadU8(c), ReadU8(c + more), more)
  {
    TakeStable(c, 1, more);
  }

  lemma U16Stable(c: seq<byte>, more: seq<byte>)
    ensures Stable(ReadU16(c), ReadU16(c + more), more)
  {
    TakeStable(c, 2, more);
  }

  lemma U32Stable(c: seq<byte>, more: seq<byte>)
    ensures Stable(ReadU32(c), ReadU32(c + more), more)
  {
    TakeStable(c, 4, more);
  }

  lemma I32Stable(c: seq<byte>, more: seq<byte>)
    ensures Stable(ReadI32(c), ReadI32(c + more), more)
  {
    TakeStable(c, 4, more);
  }

  lemma Bytes32Stable(c: seq<byte>, more: seq<byte>)
    ensures Stable(ReadBytes32(c), ReadBytes32(c + more), more)
  {
    TakeStable(c, 32, more);
  }

  lemma BoolStable(c: seq<byte>, more: seq<byte>)
    ensures Stable(ReadBool(c), ReadBool(c + more), more)
  {
    TakeStable(c, 1, more);
  }

  lemma ShortBytesStable(c: seq<byte>, more: seq<byte>)
    ensures Stable(ReadShortBytes(c), ReadShortBytes(c + more), more)
  {
    U8Stable(c, more);
    if ReadU8(c).Ok? {
      var (n, c1) := ReadU8(c).value;
      TakeStable(c1, n, more);
    }
  }

  lemma TextStable(c: seq<byte>, more: seq<byte>)
    ensures Stable(ReadShortText(c), ReadShortText(c + more), more)
  {
    ShortBytesStable(c, more);
  }

  lemma LongTextStable(c: seq<byte>, more: seq<byte>)
    ensures Stable(ReadLongText(c), ReadLongText(c + more), more)
  {
    U16Stable(c, more);
    if ReadU16(c).Ok? {
      var (n, c1) := ReadU16(c).value;
      TakeStable(c1, n, more);
    }
  }

  lemma InterfaceStable(c: seq<byte>, more: seq<byte>)
    ensures Stable(ReadInterface(c), ReadInterface(c + more), more)
  {
    U8Stable(c, more);
    if ReadU8(c).Ok? {
      var c1 := ReadU8(c).value.1;
      U8Stable(c1, more);
      if ReadU8(c1).Ok? {
        var c2 := ReadU8(c1).value.1;
        U8Stable(c2, more);
        if ReadU8(c2).Ok? {
          var c3 := ReadU8(c2).value.1;
          U8Stable(c3, more);
          if ReadU8(c3).Ok? {
            ShortBytesStable(ReadU8(c3).value.1, more);
          }
        }
      }
    }
  }

  lemma {:induction false} ManyStable<T>(read: seq<byte> -> Parsed<T>, count: nat, c: seq<byte>, more: seq<byte>)
    requires forall b :: Stable(read(b), read(b + more), more)
    ensures Stable(ReadMany(read, count, c), ReadMany(read, count, c + more), more)
  {
    if count > 0 {
      assert Stable(read(c), read(c + more), more);
      if read(c).Ok? {
        ManyStable(read, count - 1, read(c).value.1, more);
      }
    }
  }

  lemma DescriptorStable(c: seq<byte>, more: seq<byte>)
    ensures Stable(ReadDescriptor(c), ReadDescriptor(c + more), more)
  {
    U16Stable(c, more);
    if ReadU16(c).Ok? {
      var c1 := ReadU16(c).value.1;
      U16Stable(c1, more);
      if ReadU16(c1).Ok? {
        var c2 := ReadU16(c1).value.1;
        U8Stable(c2, more);
        if ReadU8(c2).Ok? {
          U8Stable(ReadU8(c2).value.1, more);
        }
      }
    }
  }

  lemma InterfacesStable(count: nat, c: seq<byte>, more: seq<byte>)
    ensures Stable(ReadMany(ReadInterface, count, c), ReadMany(ReadInterface, count, c + more), more)
  {
    forall b ensures Stable(ReadInterface(b), ReadInterface(b + more), more) {
      InterfaceStable(b, more);
    }
    ManyStable(ReadInterface, count, c, more);
  }

  lemma ExportStable(c: seq<byte>, more: seq<byte>)
    ensures Stable(ReadExport(c), ReadExport(c + more), more)
  {
    BoolStable(c, more);
    if ReadBool(c).Ok? {
      var c1 := ReadBool(c).value.1;
      U8Stable(c1, more);
      if ReadU8(c1).Ok? {
        var (n, c2) := ReadU8(c1).value;
        InterfacesStable(n, c2, more);
      }
    }
  }

  lemma DeviceStable(c: seq<byte>, more: seq<byte>)
    ensures Stable(ReadDevice(c), ReadDevice(c + more), more)
  {
    U32Stable(c, more);
    if ReadU32(c).Ok? {
      var c1 := ReadU32(c).value.1;
      TextStable(c1, more);
      if ReadShortText(c1).Ok? {
        var c2 := ReadShortText(c1).value.1;
        DescriptorStable(c2, more);
        if ReadDescriptor(c2).Ok? {
          var c3 := ReadDescriptor(c2).value.1;
          TextStable(c3, more);
          if ReadShortText(c3).Ok? {
            ExportStable(ReadShortText(c3).value.1, more);
          }
        }
      }
    }
  }

  lemma ListStable(c: seq<byte>, more: seq<byte>)
    ensures Stable(ReadDeviceList(c), ReadDeviceList(c + more), more)
  {
    U16Stable(c, more);
    if ReadU16(c).Ok? {
      var (n, c1) := ReadU16(c).value;
      forall b ensures Stable(ReadDevice(b), ReadDevice(b + more), more) {
        DeviceStable(b, more);
      }
      ManyStable(ReadDevice, n, c1, more);
    }
  }

  /** A word, and then another. */
  lemma TwoWordsStable(c: seq<byte>, more: seq<byte>)
    ensures Stable(ReadUnlink(c), ReadUnlink(c + more), more) && Stable(ReadUnlinked(c), ReadUnlinked(c + more), more)
    ensures Stable(ReadDeviceAndToken(c), ReadDeviceAndToken(c + more), more) && Stable(ReadDetach(c), ReadDetach(c + more), more)
  {
    U32Stable(c, more);
    if ReadU32(c).Ok? {
      var c1 := ReadU32(c).value.1;
      U32Stable(c1, more);
      I32Stable(c1, more);
      Bytes32Stable(c1, more);
    }
  }

  lemma SubmitStable(c: seq<byte>, more: seq<byte>)
    ensures Stable(ReadSubmit(c), ReadSubmit(c + more), more)
  {
    U32Stable(c, more);
    if ReadU32(c).Err? {
      assert Stable(ReadSubmit(c), ReadSubmit(c + more), more);
      return;
    }
    var c1 := ReadU32(c).value.1;
    U32Stable(c1, more);
    if ReadU32(c1).Err? {
      assert Stable(ReadSubmit(c), ReadSubmit(c + more), more);
      return;
    }
    var c2 := ReadU32(c1).value.1;
    U8Stable(c2, more);
    if ReadU8(c2).Err? {
      assert Stable(ReadSubmit(c), ReadSubmit(c + more), more);
      return;
    }
    var c3 := ReadU8(c2).value.1;
    U8Stable(c3, more);
    if ReadU8(c3).Err? || TransferOf(ReadU8(c3).value.0).Err? {
      assert Stable(ReadSubmit(c), ReadSubmit(c + more), more);
      return;
    }
    SubmitTailStable(ReadU8(c3).value.1, more);
    assert Stable(ReadSubmit(c), ReadSubmit(c + more), more);
  }

  /** The two lengths and the data that end a submission. */
  lemma SubmitTailStable(c: seq<byte>, more: seq<byte>)
    ensures Stable(ReadU32(c), ReadU32(c + more), more)
    ensures ReadU32(c).Ok? ==>
              var c1 := ReadU32(c).value.1;
              && Stable(ReadU32(c1), ReadU32(c1 + more), more)
              && (ReadU32(c1).Ok? ==>
                    var (n, c2) := ReadU32(c1).value;
                    Stable(Take(c2, n), Take(c2 + more, n), more))
  {
    U32Stable(c, more);
    if ReadU32(c).Ok? {
      var c1 := ReadU32(c).value.1;
      U32Stable(c1, more);
      if ReadU32(c1).Ok? {
        TakeStable(ReadU32(c1).value.1, ReadU32(c1).value.0, more);
      }
    }
  }

  lemma CompleteStable(c: seq<byte>, more: seq<byte>)
    ensures Stable(ReadComplete(c), ReadComplete(c + more), more)
  {
    U32Stable(c, more);
    if ReadU32(c).Ok? {
      var c1 := ReadU32(c).value.1;
      I32Stable(c1, more);
      if ReadI32(c1).Ok? {
        var c2 := ReadI32(c1).value.1;
        U32Stable(c2, more);
        if ReadU32(c2).Ok? {
          TakeStable(ReadU32(c2).value.1, ReadU32(c2).value.0, more);
        }
      }
    }
  }

  lemma HelloStable(c: seq<byte>, more: seq<byte>)
    ensures Stable(ReadHello(c), ReadHello(c + more), more)
  {
    U8Stable(c, more);
    if ReadU8(c).Ok? {
      var c1 := ReadU8(c).value.1;
      U8Stable(c1, more);
      if ReadU8(c1).Ok? {
        var c2 := ReadU8(c1).value.1;
        Bytes32Stable(c2, more);
        if ReadBytes32(c2).Ok? {
          TextStable(ReadBytes32(c2).value.1, more);
        }
      }
    }
  }

  lemma ErrorStable(c: seq<byte>, more: seq<byte>)
    ensures Stable(ReadError(c), ReadError(c + more), more)
  {
    U16Stable(c, more);
    if ReadU16(c).Ok? {
      LongTextStable(ReadU16(c).value.1, more);
    }
  }

  lemma PairRequestStable(c: seq<byte>, more: seq<byte>)
    ensures Stable(ReadPairRequest(c), ReadPairRequest(c + more), more)
  {
    Bytes32Stable(c, more);
    if ReadBytes32(c).Ok? {
      var c1 := ReadBytes32(c).value.1;
      Bytes32Stable(c1, more);
      if ReadBytes32(c1).Ok? {
        TextStable(ReadBytes32(c1).value.1, more);
      }
    }
  }

  lemma PairResponseStable(c: seq<byte>, more: seq<byte>)
    ensures Stable(ReadPairResponse(c), ReadPairResponse(c + more), more)
  {
    BoolStable(c, more);
    if ReadBool(c).Ok? {
      var c1 := ReadBool(c).value.1;
      Bytes32Stable(c1, more);
      if ReadBytes32(c1).Ok? {
        Bytes32Stable(ReadBytes32(c1).value.1, more);
      }
    }
  }

  lemma AttachResponseStable(c: seq<byte>, more: seq<byte>)
    ensures Stable(ReadAttachResponse(c), ReadAttachResponse(c + more), more)
  {
    U32Stable(c, more);
    if ReadU32(c).Ok? {
      var c1 := ReadU32(c).value.1;
      BoolStable(c1, more);
      if ReadBool(c1).Ok? {
        var c2 := ReadBool(c1).value.1;
        U16Stable(c2, more);
        if ReadU16(c2).Ok? {
          TextStable(ReadU16(c2).value.1, more);
        }
      }
    }
  }

  lemma UrbsStable(c: seq<byte>, more: seq<byte>)
    ensures Stable(ReadSubmitUrb(c), ReadSubmitUrb(c + more), more) && Stable(ReadCompleteUrb(c), ReadCompleteUrb(c + more), more)
  {
    SubmitStable(c, more);
    CompleteStable(c, more);
  }

  lemma TokensStable(c: seq<byte>, more: seq<byte>)
    ensures Stable(ReadDeviceListRequest(c), ReadDeviceListRequest(c + more), more)
    ensures Stable(ReadAttachRequest(c), ReadAttachRequest(c + more), more)
    ensures Stable(ReadDetachRequest(c), ReadDetachRequest(c + more), more)
  {
    Bytes32Stable(c, more);
    TwoWordsStable(c, more);
  }

  lemma BodyStable(ty: byte, c: seq<byte>, more: seq<byte>)
    ensures Stable(ReadBody(ty, c), ReadBody(ty, c + more), more)
  {
    if ty <= 7 {
      LowBodyStable(ty, c, more);
    } else {
      HighBodyStable(ty, c, more);
    }
  }

  lemma LowBodyStable(ty: byte, c: seq<byte>, more: seq<byte>)
    requires ty <= 7
    ensures Stable(ReadBody(ty, c), ReadBody(ty, c + more), more)
  {
    if ty == 1 {
      HelloStable(c, more);
    } else if ty == 2 {
      ErrorStable(c, more);
    } else if ty == 3 {
      TwoWordsStable(c, more);
    } else if ty == 4 {
      ListStable(c, more);
    } else if ty == 5 {
      PairRequestStable(c, more);
    } else if ty == 6 {
      PairResponseStable(c, more);
    } else {
      TokensStable(c, more);
    }
  }

  lemma HighBodyStable(ty: byte, c: seq<byte>, more: seq<byte>)
    requires ty > 7
    ensures Stable(ReadBody(ty, c), ReadBody(ty, c + more), more)
  {
    if ty == 8 {
      AttachResponseStable(c, more);
      assert Stable(ReadBody(ty, c), ReadBody(ty, c + more), more);
    } else if ty == 9 {
      SubmitBodyStable(c, more);
      assert Stable(ReadBody(ty, c), ReadBody(ty, c + more), more);
    } else if ty == 10 {
      CompleteBodyStable(c, more);
      assert Stable(ReadBody(ty, c), ReadBody(ty, c + more), more);
    } else if ty == 13 || ty == 14 {
      UnlinkBodyStable(ty, c, more);
      assert Stable(ReadBody(ty, c), ReadBody(ty, c + more), more);
    } else {
      TokenBodyStable(ty, c, more);
      assert Stable(ReadBody(ty, c), ReadBody(ty, c + more), more);
    }
  }

  lemma SubmitBody(c: seq<byte>)
    ensures ReadBody(9, c) == ReadSubmitUrb(c)
  {
  }

  lemma CompleteBody(c: seq<byte>)
    ensures ReadBody(10, c) == ReadCompleteUrb(c)
  {
  }

  /** What is stable is stable under another name. */
  lemma Renamed<T>(r: Parsed<T>, s: Parsed<T>, r': Parsed<T>, s': Parsed<T>, more: seq<byte>)
    requires Stable(r', s', more) && r == r' && s == s'
    ensures Stable(r, s, more)
  {
  }

  lemma SubmitBodyStable(c: seq<byte>, more: seq<byte>)
    ensures Stable(ReadBody(9, c), ReadBody(9, c + more), more)
  {
    var all := c + more;
    UrbsStable(c, more);
    SubmitBody(c);
    SubmitBody(all);
    Renamed(ReadBody(9, c), ReadBody(9, all), ReadSubmitUrb(c), ReadSubmitUrb(all), more);
  }

  lemma CompleteBodyStable(c: seq<byte>, more: seq<byte>)
    ensures Stable(ReadBody(10, c), ReadBody(10, c + more), more)
  {
    var all := c + more;
    UrbsStable(c, more);
    CompleteBody(c);
    CompleteBody(all);
    Renamed(ReadBody(10, c), ReadBody(10, all), ReadCompleteUrb(c), ReadCompleteUrb(all), more);
  }

  lemma UnlinkBodyStable(ty: byte, c: seq<byte>, more: seq<byte>)
    requires ty == 13 || ty == 14
    ensures Stable(ReadBody(ty, c), ReadBody(ty, c + more), more)
  {
    TwoWordsStable(c, more);
  }

  lemma TokenBodyStable(ty: byte, c: seq<byte>, more: seq<byte>)
    requires ty == 11 || ty == 12 || ty > 14
    ensures Stable(ReadBody(ty, c), ReadBody(ty, c + more), more)
  {
    TokensStable(c, more);
  }

  /**
   A payload that decodes is truncated if any bytes are missing at its end, and invalid if any follow:
   its length is exactly right or it is refused, and the error says which.
   */
  lemma LengthIsExact(ty: byte, payload: seq<byte>, k: nat, more: seq<byte>)
    requires ParsePayload(ty, payload).Ok? && k < |payload| && more != []
    ensures ParsePayload(ty, payload[..k]) == Err(Truncated)
    ensures ParsePayload(ty, payload + more) == Err(InvalidPayload)
  {
    var cut, missing := payload[..k], payload[k..];
    assert cut + missing == payload;
    BodyStable(ty, cut, missing);
    BodyStable(ty, payload, more);
  }

  /** A field that cannot be right makes the payload invalid, whatever follows. */
  lemma BadFieldsStay(ty: byte, payload: seq<byte>, more: seq<byte>)
    requires ParsePayload(ty, payload).Err? && ParsePayload(ty, payload).error != Truncated
    ensures ParsePayload(ty, payload + more) == ParsePayload(ty, payload)
  {
    BodyStable(ty, payload, more);
  }
}
