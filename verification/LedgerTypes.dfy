/** Ledger keys and entries, and the identity order on them
    (src/bucket/LedgerCmp.h). Account identifiers and assets are abstracted to
    numbers that keep their order. */
module LedgerTypes {
  import opened Order

  type AccountID = nat

  /** An account id in its text form; the numbers stand in the order of the texts,
      which is not the order of the ids. */
  type StrKey = nat

  type Asset = nat

  datatype Maybe<+T> = Nothing | Just(value: T)

  datatype LedgerKey =
    | AccountKey(accountID: AccountID)
    | TrustLineKey(holderID: AccountID, asset: Asset)
    | OfferKey(sellerID: AccountID, offerID: nat)
    | DataKey(ownerID: AccountID, dataName: string)

  datatype EntryData =
    | Account(accountID: AccountID, balance: int, inflationDest: Maybe<StrKey>)
    | TrustLine(holderID: AccountID, asset: Asset, holding: int)
    | Offer(sellerID: AccountID, offerID: nat, selling: Asset, buying: Asset, price: real)
    | Data(ownerID: AccountID, dataName: string, dataValue: string)

  datatype LedgerEntry = LedgerEntry(lastModified: nat, data: EntryData)

  /** LedgerEntryKey: the identity of an entry. */
  function KeyOf(e: LedgerEntry): (k: LedgerKey) {
    match e.data
    case Account(id, _, _) => AccountKey(id)
    case TrustLine(id, asset, _) => TrustLineKey(id, asset)
    case Offer(id, offerID, _, _, _) => OfferKey(id, offerID)
    case Data(id, name, _) => DataKey(id, name)
  }

  /** A table holds each entry under its own key. */
  predicate WellKeyed(m: map<LedgerKey, LedgerEntry>) {
    forall k :: k in m ==> KeyOf(m[k]) == k
  }

  function TypeRank(k: LedgerKey): (r: nat)
    ensures r < 4
  {
    match k
    case AccountKey(_) => 0
    case TrustLineKey(_, _) => 1
    case OfferKey(_, _) => 2
    case DataKey(_, _) => 3
  }

  predicate NameLess(a: string, b: string) {
    if b == [] then false
    else if a == [] then true
    else if a[0] != b[0] then a[0] < b[0]
    else NameLess(a[1..], b[1..])
  }

  predicate KeyLess(a: LedgerKey, b: LedgerKey) {
    if TypeRank(a) != TypeRank(b) then TypeRank(a) < TypeRank(b)
    else match a
      case AccountKey(id) => id < b.accountID
      case TrustLineKey(id, asset) => if id != b.holderID then id < b.holderID else asset < b.asset
      case OfferKey(id, offerID) => if id != b.sellerID then id < b.sellerID else offerID < b.offerID
      case DataKey(id, name) => if id != b.ownerID then id < b.ownerID else NameLess(name, b.dataName)
  }

  lemma {:induction false} NameLessTotal(a: string, b: string)
    ensures a == b || NameLess(a, b) || NameLess(b, a)
    ensures !(NameLess(a, b) && NameLess(b, a))
    ensures !NameLess(a, a)
  {
    if a != [] && b != [] && a[0] == b[0] {
      NameLessTotal(a[1..], b[1..]);
      assert a == [a[0]] + a[1..] && b == [b[0]] + b[1..];
    } else if a != [] {
      NameLessTotal(a[1..], a[1..]);
    }
  }

  /** The first difference decides, and a proper prefix comes first. */
  lemma {:induction false} NameLessIff(a: string, b: string)
    ensures NameLess(a, b) <==> a < b || exists i :: 0 <= i < |a| && i < |b| && a[..i] == b[..i] && a[i] < b[i]
  {
    if a != [] && b != [] && a[0] == b[0] {
      var a', b' := a[1..], b[1..];
      NameLessIff(a', b');
      assert a < b <==> a' < b' by {
        assert a == [a[0]] + a' && b == [b[0]] + b';
      }
      if i :| 0 <= i < |a'| && i < |b'| && a'[..i] == b'[..i] && a'[i] < b'[i] {
        assert a[..i + 1] == [a[0]] + a'[..i] && b[..i + 1] == [b[0]] + b'[..i];
        assert a[i + 1] < b[i + 1];
      }
      if i :| 0 <= i < |a| && i < |b| && a[..i] == b[..i] && a[i] < b[i] {
        assert a'[..i - 1] == a[..i][1..] && b'[..i - 1] == b[..i][1..];
        assert a'[i - 1] < b'[i - 1];
      }
    } else if a != [] && b != [] {
      if a[0] < b[0] {
        assert a[..0] == b[..0];
      }
      forall i | 0 < i < |a| && i < |b|
        ensures a[..i] != b[..i]
      {
        assert a[..i][0] == a[0] && b[..i][0] == b[0];
      }
    }
  }

  lemma {:induction false} NameLessTransitive(a: string, b: string, c: string)
    requires NameLess(a, b) && NameLess(b, c)
    ensures NameLess(a, c)
  {
    if a != [] && b != [] && c != [] && a[0] == b[0] == c[0] {
      NameLessTransitive(a[1..], b[1..], c[1..]);
    }
  }

  function OwnerOf(k: LedgerKey): (id: AccountID) {
    match k
    case AccountKey(id) => id
    case TrustLineKey(id, _) => id
    case OfferKey(id, _) => id
    case DataKey(id, _) => id
  }

  /** The type decides first: accounts, trust lines, offers, data. Within a type
      the account decides, then asset, offer id or name. */
  lemma {:induction false} KeyLessIff(a: LedgerKey, b: LedgerKey)
    ensures a.AccountKey? && !b.AccountKey? ==> KeyLess(a, b)
    ensures a.TrustLineKey? && (b.OfferKey? || b.DataKey?) ==> KeyLess(a, b)
    ensures a.OfferKey? && b.DataKey? ==> KeyLess(a, b)
    ensures TypeRank(a) == TypeRank(b) && OwnerOf(a) < OwnerOf(b) ==> KeyLess(a, b)
    ensures TypeRank(a) == TypeRank(b) && OwnerOf(a) == OwnerOf(b) ==>
              match a
              case AccountKey(_) => a == b
              case TrustLineKey(_, asset) => KeyLess(a, b) <==> asset < b.asset
              case OfferKey(_, offerID) => KeyLess(a, b) <==> offerID < b.offerID
              case DataKey(_, name) =>
                KeyLess(a, b) <==>
                name < b.dataName ||
                exists i :: 0 <= i < |name| && i < |b.dataName| && name[..i] == b.dataName[..i] &&
                            name[i] < b.dataName[i]
  {
    if a.DataKey? && b.DataKey? {
      NameLessIff(a.dataName, b.dataName);
    }
  }

  /** LedgerEntryIdCmp is a strict total order whose equivalence is identity,
      which is all that merging relies on. */
  lemma {:induction false} KeyLessTotal()
    ensures StrictTotal(KeyLess)
  {
    forall a: LedgerKey, b: LedgerKey
      ensures !KeyLess(a, a)
      ensures a == b || KeyLess(a, b) || KeyLess(b, a)
    {
      if a.DataKey? && b.DataKey? {
        NameLessTotal(a.dataName, b.dataName);
      }
      if a.DataKey? {
        NameLessTotal(a.dataName, a.dataName);
      }
    }
    forall a: LedgerKey, b: LedgerKey, c: LedgerKey | KeyLess(a, b) && KeyLess(b, c)
      ensures KeyLess(a, c)
    {
      if a.DataKey? && b.DataKey? && c.DataKey? && a.ownerID == b.ownerID == c.ownerID {
        NameLessTransitive(a.dataName, b.dataName, c.dataName);
      }
    }
  }
}
