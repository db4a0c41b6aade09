/**
 * The browser's localStorage as the ledger sees it: plain string entries (the
 * wallet address, the sign-in nonce, the wallet type) and the JSON user records
 * kept under "user_" + address, the latter held already decoded.
 */
module Storage {
  import opened Progress

  const WalletAddressKey: string := "walletAddress"
  const AuthNonceKey: string := "authNonce"
  const WalletTypeKey: string := "walletType"

  /** The key the record of `address` is kept under. */
  function UserKey(address: string): (k: string)
    ensures |k| == |address| + 5 && k[5..] == address
  {
    "user_" + address
  }

  class LocalStorage {
    var entries: map<string, string>
    var records: map<string, UserData>

    constructor (entries: map<string, string>, records: map<string, UserData>)
      ensures this.entries == entries && this.records == records
    {
      this.entries := entries;
      this.records := records;
    }

    /** `localStorage.setItem(key, value)` for a string value. */
    method SetItem(key: string, value: string)
      modifies this`entries
      ensures entries == old(entries)[key := value]
    {
      entries := entries[key := value];
    }

    /** `localStorage.removeItem(key)` for a string entry. */
    method RemoveItem(key: string)
      modifies this`entries
      ensures entries == old(entries) - {key}
    {
      entries := entries - {key};
    }

    /** `localStorage.setItem(key, JSON.stringify(record))`. */
    method SetRecord(key: string, record: UserData)
      modifies this`records
      ensures records == old(records)[key := record]
    {
      records := records[key := record];
    }
  }
}
