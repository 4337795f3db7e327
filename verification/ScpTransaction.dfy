/** What is read from a ScPrime transaction: the amount burned, the addresses it spends from and the Solana
    address in its arbitrary data (common/helpers.go, scprime/scprime.go). */
module ScpTransaction {
  import opened Common

  type Byte = b: nat | b < 256

  datatype Output = Output(address: UnlockHash, value: nat)

  datatype Transaction = Transaction(inputs: seq<UnlockHash>, outputs: seq<Output>, arbitraryData: seq<seq<Byte>>)

  /** The unlock hash of 32 zero bytes. */
  const BURN_ADDRESS: UnlockHash := 0

  // ---------- the burn ----------

  /** Burned value, output by output. */
  function Burned(outputs: seq<Output>, burnAddress: UnlockHash): nat {
    if outputs == [] then 0
    else Burned(outputs[..|outputs| - 1], burnAddress)
         + (if outputs[|outputs| - 1].address == burnAddress then outputs[|outputs| - 1].value else 0)
  }

  /** An output counts by its value if it goes to the burn address, and not at all otherwise. */
  lemma BurnedOne(o: Output, burnAddress: UnlockHash)
    ensures Burned([o], burnAddress) == if o.address == burnAddress then o.value else 0
  {
    assert [o][..0] == [];
    assert Burned([], burnAddress) == 0;
  }

  lemma {:induction false} BurnedAdds(a: seq<Output>, b: seq<Output>, burnAddress: UnlockHash)
    ensures Burned(a + b, burnAddress) == Burned(a, burnAddress) + Burned(b, burnAddress)
  {
    if b == [] {
      assert a + b == a;
    } else {
      assert (a + b)[..|a + b| - 1] == a + b[..|b| - 1];
      BurnedAdds(a, b[..|b| - 1], burnAddress);
    }
  }

  method BurntAmount(outputs: seq<Output>, burnAddress: UnlockHash) returns (burntAmount: nat)
    ensures burntAmount == Burned(outputs, burnAddress)
    ensures burntAmount > 0 <==> exists i :: 0 <= i < |outputs| && outputs[i].address == burnAddress && outputs[i].value > 0
  {
    burntAmount := 0;
    for i := 0 to |outputs|
      invariant burntAmount == Burned(outputs[..i], burnAddress)
      invariant burntAmount > 0 <==> exists k :: 0 <= k < i && outputs[k].address == burnAddress && outputs[k].value > 0
    {
      if outputs[i].address == burnAddress {
        burntAmount := burntAmount + outputs[i].value;
      }
      assert outputs[..i + 1][..i] == outputs[..i];
    }
    assert outputs[..|outputs|] == outputs;
  }

  // ---------- the spending addresses ----------

  /** Each address once, in order of first occurrence. */
  function Unique(inputs: seq<UnlockHash>): seq<UnlockHash> {
    if inputs == [] then []
    else
      var rest, last := Unique(inputs[..|inputs| - 1]), inputs[|inputs| - 1];
      if last in rest then rest else rest + [last]
  }

  lemma {:induction false} UniqueIs(inputs: seq<UnlockHash>)
    ensures forall a :: a in Unique(inputs) <==> a in inputs
    ensures forall i, j :: 0 <= i < j < |Unique(inputs)| ==> Unique(inputs)[i] != Unique(inputs)[j]
    ensures inputs != [] ==> Unique(inputs) != [] && Unique(inputs)[0] == inputs[0]
  {
    if inputs != [] {
      var init := inputs[..|inputs| - 1];
      UniqueIs(init);
      assert inputs == init + [inputs[|inputs| - 1]];
    }
  }

  lemma UniqueSingle(inputs: seq<UnlockHash>)
    ensures |Unique(inputs)| == 1 <==> inputs != [] && forall i :: 0 <= i < |inputs| ==> inputs[i] == inputs[0]
  {
    hide Unique;
    var res := Unique(inputs);
    UniqueIs(inputs);
    if |res| > 1 {
      assert res[1] in inputs && res[0] != res[1];
      var k :| 0 <= k < |inputs| && inputs[k] == res[1];
      assert inputs[k] != inputs[0];
    } else if |res| == 1 {
      assert res[0] in inputs;
      forall i | 0 <= i < |inputs|
        ensures inputs[i] == inputs[0]
      {
        assert inputs[i] in res;
      }
    }
  }

  method ExtractUnlockHashes(inputs: seq<UnlockHash>) returns (res: seq<UnlockHash>)
    ensures res == Unique(inputs)
    ensures forall a :: a in res <==> a in inputs
    ensures forall i, j :: 0 <= i < j < |res| ==> res[i] != res[j]
    ensures |res| == 1 <==> inputs != [] && forall i :: 0 <= i < |inputs| ==> inputs[i] == inputs[0]
    ensures inputs != [] ==> res != [] && res[0] == inputs[0]
  {
    var unique: set<UnlockHash> := {};
    res := [];
    for i := 0 to |inputs|
      invariant forall a :: a in unique <==> a in res
      invariant res == Unique(inputs[..i])
    {
      assert inputs[..i + 1][..i] == inputs[..i];
      if inputs[i] !in unique {
        unique := unique + {inputs[i]};
        res := res + [inputs[i]];
      }
    }
    assert inputs[..|inputs|] == inputs;
    UniqueIs(inputs);
    UniqueSingle(inputs);
  }

  // ---------- the Solana address ----------

  const SPECIFIER_LEN: nat := 16
  const SOLANA_ADDR_LEN: nat := 32

  const ZEROS: seq<Byte> := [0, 0, 0, 0, 0, 0, 0, 0, 0, 0, 0, 0, 0, 0, 0, 0]

  /** A name of at most 16 bytes, filled up with zeros. */
  function Specifier(name: seq<Byte>): (s: seq<Byte>)
    requires |name| <= SPECIFIER_LEN
    ensures |s| == SPECIFIER_LEN
  {
    name + ZEROS[|name|..]
  }

  // "NonSia" and "SolanaSpfAddr".
  const PREFIX_NON_SIA: seq<Byte> := Specifier([78, 111, 110, 83, 105, 97])
  const PREFIX_SOLANA: seq<Byte> := Specifier([83, 111, 108, 97, 110, 97, 83, 112, 102, 65, 100, 100, 114])

  function PutSolanaAddress(addr: seq<Byte>): seq<Byte>
    requires |addr| == SOLANA_ADDR_LEN
  {
    PREFIX_NON_SIA + PREFIX_SOLANA + addr
  }

  function ExtractSolanaAddress(data: seq<Byte>): Option<seq<Byte>> {
    if |data| != 2 * SPECIFIER_LEN + SOLANA_ADDR_LEN then None
    else if data[..SPECIFIER_LEN] != PREFIX_NON_SIA then None
    else if data[SPECIFIER_LEN..2 * SPECIFIER_LEN] != PREFIX_SOLANA then None
    else Some(data[2 * SPECIFIER_LEN..])
  }

  /** Reading is the inverse of writing: an address is read back, and from nothing but what was written for it. */
  lemma ExtractIff(data: seq<Byte>, addr: seq<Byte>)
    ensures ExtractSolanaAddress(data) == Some(addr) <==> |addr| == SOLANA_ADDR_LEN && data == PutSolanaAddress(addr)
  {
    if |addr| == SOLANA_ADDR_LEN && data == PutSolanaAddress(addr) {
      assert data[..SPECIFIER_LEN] == PREFIX_NON_SIA && data[SPECIFIER_LEN..2 * SPECIFIER_LEN] == PREFIX_SOLANA;
      assert data[2 * SPECIFIER_LEN..] == addr;
    }
    if ExtractSolanaAddress(data) == Some(addr) {
      assert data == data[..SPECIFIER_LEN] + data[SPECIFIER_LEN..2 * SPECIFIER_LEN] + data[2 * SPECIFIER_LEN..];
    }
  }

  /** The number that the bytes spell, by which the rest of the model names an address. */
  function Number(bytes: seq<Byte>): nat {
    if bytes == [] then 0 else 256 * Number(bytes[..|bytes| - 1]) + bytes[|bytes| - 1]
  }

  /** Different addresses have different numbers. */
  lemma {:induction false} NumberNamesAddress(a: seq<Byte>, b: seq<Byte>)
    requires |a| == |b| && Number(a) == Number(b)
    ensures a == b
  {
    if a != [] {
      NumberNamesAddress(a[..|a| - 1], b[..|b| - 1]);
      assert a == a[..|a| - 1] + [a[|a| - 1]] && b == b[..|b| - 1] + [b[|b| - 1]];
    }
  }

  /** The first piece of arbitrary data that holds an address. */
  function AddressIn(data: seq<seq<Byte>>): Option<SolanaAddress> {
    if data == [] then None
    else
      match ExtractSolanaAddress(data[0])
      case Some(addr) => Some(Number(addr))
      case None => AddressIn(data[1..])
  }

  method ExtractAddress(data: seq<seq<Byte>>) returns (r: Option<SolanaAddress>)
    ensures r == AddressIn(data)
    ensures r.Some? <==> exists i :: 0 <= i < |data| && ExtractSolanaAddress(data[i]).Some?
    ensures r.Some? ==> exists i :: 0 <= i < |data| && ExtractSolanaAddress(data[i]).Some?
                                    && r.value == Number(ExtractSolanaAddress(data[i]).value)
                                    && forall k :: 0 <= k < i ==> ExtractSolanaAddress(data[k]).None?
  {
    for i := 0 to |data|
      invariant AddressIn(data) == AddressIn(data[i..])
      invariant forall k :: 0 <= k < i ==> ExtractSolanaAddress(data[k]).None?
    {
      assert data[i..][0] == data[i] && data[i..][1..] == data[i + 1..];
      var addr := ExtractSolanaAddress(data[i]);
      if addr.Some? {
        return Some(Number(addr.value));
      }
    }
    return None;
  }
}
