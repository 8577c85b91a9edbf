/**
 Packing Safe transactions for the multisend contract in Solidity's non-standard packed mode: 1 byte for the
 operation, 20 for the target, 32 for the value, 32 for the length, then the data, with nothing in between.
 */
module Multisend {
  import opened HoprTypes
  import opened BigEndian

  datatype SafeTxOperation = Call | DelegateCall

  // `to` and `value` are words of 20 and 32 bytes.
  datatype MultisendTransaction = MultisendTransaction(data: seq<Byte>, operation: SafeTxOperation, to: nat, value: nat)

  predicate Fits(t: MultisendTransaction) {
    t.to < Pow256(20) && t.value < Pow256(32) && |t.data| < Pow256(32)
  }

  predicate AllFit(txs: seq<MultisendTransaction>) {
    forall t :: t in txs ==> Fits(t)
  }

  function ToByte(op: SafeTxOperation): Byte {
    match op
    case Call => 0
    case DelegateCall => 1
  }

  function EncodePacked(t: MultisendTransaction): seq<Byte> {
    [ToByte(t.operation)] + ToBeBytes(t.to, 20) + ToBeBytes(t.value, 32) + ToBeBytes(|t.data|, 32) + t.data
  }

  function Packed(txs: seq<MultisendTransaction>): seq<Byte> {
    if txs == [] then [] else EncodePacked(txs[0]) + Packed(txs[1..])
  }

  method BuildMultisendTx(transactions: seq<MultisendTransaction>) returns (payload: seq<Byte>)
    ensures payload == Packed(transactions)
  {
    payload := [];
    assert transactions[..0] == [];
    for i := 0 to |transactions|
      invariant payload == Packed(transactions[..i])
    {
      assert transactions[..i + 1] == transactions[..i] + [transactions[i]];
      PackedConcat(transactions[..i], [transactions[i]]);
      PackedOne(transactions[i]);
      payload := payload + EncodePacked(transactions[i]);
    }
    assert transactions[..|transactions|] == transactions;
  }

  lemma PackedOne(t: MultisendTransaction)
    ensures Packed([t]) == EncodePacked(t)
  {
    assert [t][1..] == [];
    assert Packed([t]) == EncodePacked(t) + Packed([]);
  }

  /** Concatenating payloads is concatenating lists. */
  lemma {:induction false} PackedConcat(a: seq<MultisendTransaction>, b: seq<MultisendTransaction>)
    ensures Packed(a + b) == Packed(a) + Packed(b)
    decreases |a|
  {
    if a == [] {
      assert a + b == b;
    } else {
      assert (a + b)[1..] == a[1..] + b;
      PackedConcat(a[1..], b);
    }
  }

  // What the multisend contract reads: headers and payloads until the buffer ends.
  const HEADER: nat := 85

  function OperationOf(b: Byte): Option<SafeTxOperation> {
    if b == 0 then Some(Call) else if b == 1 then Some(DelegateCall) else None
  }

  function DataLength(bytes: seq<Byte>): nat
    requires |bytes| >= HEADER
  {
    FromBeSlice(bytes[53..85])
  }

  function ParseOne(bytes: seq<Byte>): (r: Option<(MultisendTransaction, seq<Byte>)>)
    ensures r.Some? ==> |r.value.1| < |bytes|
  {
    if |bytes| < HEADER || OperationOf(bytes[0]) == None || |bytes| < HEADER + DataLength(bytes) then None
    else
      var end := HEADER + DataLength(bytes);
      Some((
        MultisendTransaction(
          bytes[85..end], OperationOf(bytes[0]).value, FromBeSlice(bytes[1..21]), FromBeSlice(bytes[21..53])),
        bytes[end..]))
  }

  function Parse(bytes: seq<Byte>): Option<seq<MultisendTransaction>>
    decreases |bytes|
  {
    if bytes == [] then Some([])
    else
      match ParseOne(bytes)
      case None => None
      case Some((t, rest)) =>
        match Parse(rest)
        case None => None
        case Some(ts) => Some([t] + ts)
  }

  /** Reading off the front of a buffer what was packed there. */
  lemma ParsesWhatWasPacked(t: MultisendTransaction, rest: seq<Byte>)
    requires Fits(t)
    ensures ParseOne(EncodePacked(t) + rest) == Some((t, rest))
  {
    hide ToBeBytes;
    hide FromBeSlice;
    hide Pow256;
    var bytes := EncodePacked(t) + rest;
    assert bytes[1..21] == ToBeBytes(t.to, 20);
    assert bytes[21..53] == ToBeBytes(t.value, 32);
    assert bytes[53..85] == ToBeBytes(|t.data|, 32);
    BytesOfNumber(t.to, 20);
    BytesOfNumber(t.value, 32);
    BytesOfNumber(|t.data|, 32);
    assert bytes[85..85 + |t.data|] == t.data;
    assert bytes[85 + |t.data|..] == rest;
  }

  /** And packing what was read off gives the buffer back. */
  lemma PacksWhatWasParsed(bytes: seq<Byte>)
    requires ParseOne(bytes).Some?
    ensures var (t, rest) := ParseOne(bytes).value;
      Fits(t) && EncodePacked(t) + rest == bytes
  {
    hide ToBeBytes;
    hide FromBeSlice;
    hide Pow256;
    NumberOfBytes(bytes[1..21]);
    NumberOfBytes(bytes[21..53]);
    NumberOfBytes(bytes[53..85]);
    var (t, rest) := ParseOne(bytes).value;
    assert |t.data| == DataLength(bytes);
    assert bytes[0..1] + bytes[1..21] + bytes[21..53] + bytes[53..85] + t.data + rest == bytes;
  }

  /** A payload parses to exactly the list it was packed from. */
  lemma {:induction false} RoundTrip(txs: seq<MultisendTransaction>)
    requires AllFit(txs)
    ensures Parse(Packed(txs)) == Some(txs)
    decreases |txs|
  {
    if txs != [] {
      ParsesWhatWasPacked(txs[0], Packed(txs[1..]));
      RoundTrip(txs[1..]);
      hide ParseOne;
      hide EncodePacked;
      assert Packed(txs) != [] by { PackedIsLong(txs[0], Packed(txs[1..])); }
      assert txs == [txs[0]] + txs[1..];
    }
  }

  lemma PackedIsLong(t: MultisendTransaction, rest: seq<Byte>)
    ensures |EncodePacked(t) + rest| >= HEADER
  {
  }

  /** Every parsable buffer is the payload of the list it parses to. */
  lemma {:induction false} ParseIsUnpacking(bytes: seq<Byte>)
    requires Parse(bytes).Some?
    ensures AllFit(Parse(bytes).value) && Packed(Parse(bytes).value) == bytes
    decreases |bytes|
  {
    if bytes != [] {
      var (t, rest) := ParseOne(bytes).value;
      PacksWhatWasParsed(bytes);
      ParseIsUnpacking(rest);
      hide ParseOne;
      hide EncodePacked;
      var ts := Parse(rest).value;
      assert ([t] + ts)[1..] == ts;
    }
  }

  /** So lists and payloads determine each other. */
  lemma PackedIsInjective(a: seq<MultisendTransaction>, b: seq<MultisendTransaction>)
    requires AllFit(a) && AllFit(b) && Packed(a) == Packed(b)
    ensures a == b
  {
    RoundTrip(a);
    RoundTrip(b);
  }
}
