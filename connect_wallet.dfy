/**
 * Wallet sign-in of components/connect-wallet.tsx. The wallet extension, the
 * signature and the random nonce are outside the model: whether an extension is
 * present, the accounts it returns, the address recovered from the signature and
 * the nonce arrive as parameters. What remains is the order of the checks, the
 * three storage entries, the first-time record and the store's sign-in state.
 */
module ConnectWallet {
  import opened Wrappers
  import opened Progress
  import opened Storage
  import opened UserStore

  const SignUpTokens: int := 100

  /** The record a wallet gets the first time it signs in. */
  function NewUserRecord(address: string): (u: UserData)
    ensures u.walletAddress == address && u.questTokens == SignUpTokens
    ensures Consistent(u) && LevelNormal(u)
    ensures Total(u) == SignUpTokens && u.xp == 0 && u.level == 1
    ensures u.stakedTokens == 0 && u.stakingEndTime == 0
    ensures u.enrolledCourses == [] && u.completedCourses == [] && u.achievements == []
  {
    UserData(address, 0, 1, SignUpTokens, [], [], 0, 0, [])
  }

  /**
   * Every record the store's actions can produce from a first-time record keeps
   * the ledger invariants, whatever the actions, their order and their times.
   */
  lemma ReachableRecordsConsistent(address: string, actions: seq<(Action, int)>)
    ensures Consistent(Run(NewUserRecord(address), actions))
  {
    RunKeepsConsistent(NewUserRecord(address), actions);
  }

  /**
   * initializeUserData on values: the stored record of `address` when there is
   * one, otherwise a new record, which is also stored.
   */
  function GetOrCreate(records: map<string, UserData>, address: string): (r: (map<string, UserData>, UserData))
    ensures UserKey(address) in r.0 && r.0[UserKey(address)] == r.1
    ensures UserKey(address) in records ==> r.0 == records && r.1 == records[UserKey(address)]
    ensures UserKey(address) !in records ==>
      r.1 == NewUserRecord(address) && r.0 == records[UserKey(address) := r.1]
    ensures forall k :: k != UserKey(address) ==> (k in r.0 <==> k in records)
  {
    var key := UserKey(address);
    if key in records then (records, records[key])
    else (records[key := NewUserRecord(address)], NewUserRecord(address))
  }

  /** Signing in twice with the same wallet finds the record the first sign-in left. */
  lemma GetOrCreateIdempotent(records: map<string, UserData>, address: string)
    ensures var (stored, u) := GetOrCreate(records, address);
      GetOrCreate(stored, address) == (stored, u)
  {
  }

  /** Signing in never alters or drops another wallet's record. */
  lemma GetOrCreateKeepsOthers(records: map<string, UserData>, address: string, other: string)
    requires other != address && UserKey(other) in records
    ensures var stored := GetOrCreate(records, address).0;
      UserKey(other) in stored && stored[UserKey(other)] == records[UserKey(other)]
  {
    assert UserKey(other)[5..] != UserKey(address)[5..];
  }

  /** initializeUserData: loads the stored record, or stores and loads a new one. */
  method InitializeUserData(store: Store, storage: LocalStorage, address: string)
    modifies store`userData, storage`records
    ensures store.userData.Some?
    ensures (storage.records, store.userData.value) == GetOrCreate(old(storage.records), address)
  {
    var key := UserKey(address);
    if key !in storage.records {
      var userData := NewUserRecord(address);
      storage.SetRecord(key, userData);
      store.SetUserData(userData);
    } else {
      store.SetUserData(storage.records[key]);
    }
  }

  /** `toLowerCase` on one character, for the ASCII letters a hexadecimal address is written in. */
  function LowerChar(c: char): (r: char)
    ensures 'A' <= c <= 'Z' ==> 'a' <= r <= 'z' && r as int == c as int + 32
    ensures !('A' <= c <= 'Z') ==> r == c
  {
    if 'A' <= c <= 'Z' then (c as int + 32) as char else c
  }

  function Lower(s: string): (r: string)
    ensures |r| == |s|
    ensures forall i :: 0 <= i < |s| ==> r[i] == LowerChar(s[i])
  {
    if s == [] then [] else [LowerChar(s[0])] + Lower(s[1..])
  }

  /** Two lowered strings are equal exactly when the strings agree letter by letter, ignoring case. */
  lemma LowerEqualPointwise(a: string, b: string)
    ensures Lower(a) == Lower(b) <==>
      |a| == |b| && forall i :: 0 <= i < |a| ==> LowerChar(a[i]) == LowerChar(b[i])
  {
    var la, lb := Lower(a), Lower(b);
    if la == lb {
      forall i | 0 <= i < |a| ensures LowerChar(a[i]) == LowerChar(b[i]) {
        assert la[i] == LowerChar(a[i]) && lb[i] == LowerChar(b[i]);
      }
    }
    if |a| == |b| && forall i :: 0 <= i < |a| ==> LowerChar(a[i]) == LowerChar(b[i]) {
      forall i | 0 <= i < |la| ensures la[i] == lb[i] {
        assert la[i] == LowerChar(a[i]) && lb[i] == LowerChar(b[i]);
      }
    }
  }

  /** The address check: two addresses match when they agree letter by letter, ignoring case. */
  predicate SameAddress(a: string, b: string): (r: bool)
    ensures r <==> |a| == |b| && forall i :: 0 <= i < |a| ==> LowerChar(a[i]) == LowerChar(b[i])
  {
    LowerEqualPointwise(a, b);
    Lower(a) == Lower(b)
  }

  /** An address checksummed in mixed case matches its lower-case spelling. */
  lemma SameAddressLowered(a: string)
    ensures SameAddress(a, Lower(a))
  {
    assert forall i :: 0 <= i < |a| ==> LowerChar(LowerChar(a[i])) == LowerChar(a[i]);
    assert Lower(Lower(a)) == Lower(a);
  }

  datatype ConnectError = NotInstalled | NoAccounts | SignatureMismatch

  /** The component state of the connect button. */
  class Connector {
    var isConnecting: bool
    var error: Option<ConnectError>
    var chosen: Option<WalletKind>

    constructor ()
      ensures !isConnecting && error == None && chosen == None
    {
      isConnecting := false;
      error := None;
      chosen := None;
    }

    /**
     * connectMetaMask: fails with no extension, with no account, or when the
     * address recovered from the signature is not the first account ignoring
     * case; each failure leaves storage and the store as they were. On success
     * the address, the nonce and the wallet type are stored, the record is loaded
     * or created and the store is signed in with MetaMask.
     */
    method ConnectMetaMask(store: Store, storage: LocalStorage, installed: bool, accounts: seq<string>,
                           recoveredAddress: string, nonce: string)
      modifies this, store, storage
      ensures chosen == Some(MetaMask) && !isConnecting
      ensures !installed ==> error == Some(NotInstalled)
      ensures installed && accounts == [] ==> error == Some(NoAccounts)
      ensures installed && accounts != [] && !SameAddress(recoveredAddress, accounts[0]) ==>
        error == Some(SignatureMismatch)
      ensures error.Some? ==> unchanged(store, storage)
      ensures error.None? <==> installed && accounts != [] && SameAddress(recoveredAddress, accounts[0])
      ensures error.None? ==>
        && storage.entries == old(storage.entries)[WalletAddressKey := accounts[0]][AuthNonceKey := nonce][WalletTypeKey := "metamask"]
        && store.userData.Some?
        && (storage.records, store.userData.value) == GetOrCreate(old(storage.records), accounts[0])
        && store.isAuthenticated && store.walletType == Some(MetaMask)
    {
      chosen := Some(MetaMask);
      isConnecting := true;
      error := None;
      if !installed {
        error := Some(NotInstalled);
      } else if accounts == [] {
        error := Some(NoAccounts);
      } else if !SameAddress(recoveredAddress, accounts[0]) {
        error := Some(SignatureMismatch);
      } else {
        var address := accounts[0];
        storage.SetItem(WalletAddressKey, address);
        storage.SetItem(AuthNonceKey, nonce);
        storage.SetItem(WalletTypeKey, "metamask");
        InitializeUserData(store, storage, address);
        store.SetAuthenticated(true, Some(MetaMask));
      }
      isConnecting := false;
    }

    /**
     * connectPhantom: fails only with no extension; otherwise the same sign-in as
     * MetaMask under the wallet's public key, with no check of the signature.
     */
    method ConnectPhantom(store: Store, storage: LocalStorage, installed: bool, address: string, nonce: string)
      modifies this, store, storage
      ensures chosen == Some(Phantom) && !isConnecting
      ensures error.Some? <==> !installed
      ensures !installed ==> error == Some(NotInstalled) && unchanged(store, storage)
      ensures installed ==>
        && storage.entries == old(storage.entries)[WalletAddressKey := address][AuthNonceKey := nonce][WalletTypeKey := "phantom"]
        && store.userData.Some?
        && (storage.records, store.userData.value) == GetOrCreate(old(storage.records), address)
        && store.isAuthenticated && store.walletType == Some(Phantom)
    {
      chosen := Some(Phantom);
      isConnecting := true;
      error := None;
      if !installed {
        error := Some(NotInstalled);
      } else {
        storage.SetItem(WalletAddressKey, address);
        storage.SetItem(AuthNonceKey, nonce);
        storage.SetItem(WalletTypeKey, "phantom");
        InitializeUserData(store, storage, address);
        store.SetAuthenticated(true, Some(Phantom));
      }
      isConnecting := false;
    }
  }
}
