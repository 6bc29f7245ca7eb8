/** What the map decoders refuse, by key type, and which complaint they make. */
module Refusals {
  import opened Bytes
  import opened CompactSize
  import opened Bitcoin
  import opened Values
  import opened Tables
  import opened Maps

  /** Types whose key data version 2 never looks at: every such key means the one field. */
  predicate DataIgnored(table: Table, t: nat) {
    match table
    case GlobalV2 => 0x02 <= t <= 0x06 || t == 0xfb
    case InputV2 =>
      t == 0x00 || t == 0x01 || 0x03 <= t <= 0x05 || t == 0x07 || t == 0x08 || 0x0e <= t <= 0x13
      || t == 0x17 || t == 0x18
    case OutputV2 => t == 0x00 || t == 0x01 || 0x03 <= t <= 0x06
    case OutputV0 => t == 0x09 || t == 0x0a
    case _ => false
  }

  /** Types version 0 takes no key data for, refused before any value byte is read. */
  predicate DataRefused(table: Table, t: nat) {
    match table
    case InputV0 =>
      t == 0x00 || t == 0x01 || 0x03 <= t <= 0x05 || t == 0x07 || t == 0x08 || 0x0a <= t <= 0x0d || t == 0x13
      || t == 0x17 || t == 0x18 || t == 0xfc
    case OutputV0 => t == 0x00 || t == 0x01 || t == 0x05 || t == 0x06 || t == 0xfc
    case _ => false
  }

  /** The slot a key fills: the field's one slot where its data is ignored, a slot of its own elsewhere. */
  lemma SlotIs(table: Table, k: Key)
    ensures Slot(table, k) == if DataIgnored(table, k.keyType) then Key(k.keyType, []) else k
  {
  }

  /** The keys refused on sight: version 0's transaction in version 2, and key data where version 0 takes none. */
  lemma RefusedOnSight(table: Table, k: Key)
    ensures RuleOf(table, k).Reject? <==>
      (table == GlobalV2 && k.keyType == 0x00) || (DataRefused(table, k.keyType) && k.data != [])
    ensures table == GlobalV2 && k.keyType == 0x00 ==> RuleOf(table, k) == Reject(ExcludedKey)
    ensures DataRefused(table, k.keyType) && k.data != [] ==> RuleOf(table, k) == Reject(InvalidKeyData)
  {
  }

  /** An accepted, decoded pair is stored exactly if its key data is right and its slot is free; nothing else moves. */
  lemma StoredIff(table: Table, r: Record, e: Entry)
    requires RuleOf(table, e.key).Accept?
    ensures var slot, right := Slot(table, e.key), DataOk(RuleOf(table, e.key).data, e.key.data);
      && (Store(table, r, e).Ok? <==> right && slot !in r)
      && (Store(table, r, e).Ok? ==>
            Store(table, r, e).value.Keys == r.Keys + {slot} && Store(table, r, e).value[slot] == e.value
            && forall k | k in r :: Store(table, r, e).value[k] == r[k])
      && (right && slot in r ==> Store(table, r, e) == Err(DuplicateKey))
      && (!right && !RuleOf(table, e.key).data.NoData? ==> Store(table, r, e) == Err(InvalidKeyData))
  {
    NoDataMeans(e.key);
    hide RuleOf, DataOk;
  }

  lemma NoDataMeans(k: Key)
    ensures DataOk(NoData, k.data) ==> k == Key(k.keyType, [])
  {
  }

  /** Key data on a silent payment field of version 2 is noticed after the duplicate; elsewhere before. */
  lemma ComplaintOrder(r: Record, d: bytes, v: Value)
    requires d != []
    ensures Store(OutputV2, r, Entry(Key(0x09, d), v))
         == Err(if Key(0x09, []) in r then DuplicateKey else InvalidKeyData)
    ensures Store(OutputV2, r, Entry(Key(0x0a, d), v))
         == Err(if Key(0x0a, []) in r then DuplicateKey else InvalidKeyData)
    ensures Store(GlobalV0, r, Entry(Key(0x00, d), v)) == Err(InvalidKeyData)
    ensures Store(GlobalV0, r, Entry(Key(0xfb, d), v)) == Err(InvalidKeyData)
  {
  }

  /** The complaint at the separator: the first required field that is missing, then the fields that belong together. */
  lemma FirstMissing(r: Record)
    ensures Complete(GlobalV2, r) ==
      if Key(0xfb, []) !in r then Some(Missing(0xfb))
      else if Key(0x02, []) !in r then Some(Missing(0x02))
      else if Key(0x04, []) !in r then Some(Missing(0x04))
      else if Key(0x05, []) !in r then Some(Missing(0x05))
      else if (exists k | k in r :: k.keyType == 0x07) != (exists k | k in r :: k.keyType == 0x08)
      then Some(SpFieldMismatch)
      else None
    ensures Complete(GlobalV0, r) ==
      if Key(0x00, []) !in r then Some(Missing(0x00))
      else if (exists k | k in r :: k.keyType == 0x07) != (exists k | k in r :: k.keyType == 0x08)
      then Some(SpFieldMismatch)
      else None
    ensures Complete(OutputV2, r) ==
      if Key(0x03, []) !in r then Some(Missing(0x03))
      else if Key(0x04, []) !in r && Key(0x09, []) !in r then Some(Missing(0x04))
      else if Key(0x0a, []) in r && Key(0x09, []) !in r then Some(SpLabelWithoutInfo)
      else None
    ensures Complete(InputV0, r) == None && Complete(OutputV0, r) == None
  {
  }

  /** For inputs the txid of the spent transaction is compared last. */
  lemma FirstMissingInput(r: Record)
    requires Key(0x00, []) in r ==> r[Key(0x00, [])].Tx?
    requires Key(0x0e, []) in r ==> r[Key(0x0e, [])].Blob?
    ensures Complete(InputV2, r) ==
      if Key(0x0e, []) !in r then Some(Missing(0x0e))
      else if Key(0x0f, []) !in r then Some(Missing(0x0f))
      else if (exists k | k in r :: k.keyType == 0x1d) != (exists k | k in r :: k.keyType == 0x1e)
      then Some(SpFieldMismatch)
      else if Key(0x00, []) in r && CRYPTO.txid(r[Key(0x00, [])].tx) != r[Key(0x0e, [])].b
      then Some(IncorrectNonWitnessUtxo)
      else None
  {
  }
}
