/** The wallet-connection helper of the BNS pre-launch registration page:
    the persisted network preference, address truncation for display, and
    the `useStacksWallet` composable, whose reactive refs become the fields
    of class `Wallet` and whose functions and delayed callbacks become its
    methods. */
module StacksConnect {
  import opened Wrappers
  import opened Browser
  import opened StacksLibrary

  /** The two network names the source's `Network` type allows. */
  const Mainnet: string := "mainnet"
  const Testnet: string := "testnet"

  /** The localStorage key of the network preference. */
  const NetworkKey: string := "stacks-network"

  // ---------------------------------------------------------------------
  // Network preference

  /** The network named by the stored preference: a missing or empty stored
      value selects mainnet; any other stored string is taken unchecked. */
  function NetworkFromStored(saved: Option<string>): (n: string)
    ensures saved == None || saved == Some("") ==> n == Mainnet
    ensures saved.Some? && saved.value != "" ==> n == saved.value
    ensures n != ""
  {
    if saved.Some? && saved.value != "" then saved.value else Mainnet
  }

  /** `getPersistedNetwork()`; a null storage stands for the absence of a
      browser window. */
  function GetPersistedNetwork(storage: LocalStorage?): (n: string)
    reads storage
    ensures storage == null ==> n == Mainnet
    ensures storage != null && (NetworkKey !in storage.items || storage.items[NetworkKey] == "") ==> n == Mainnet
    ensures storage != null && NetworkKey in storage.items && storage.items[NetworkKey] != "" ==> n == storage.items[NetworkKey]
  {
    if storage == null then Mainnet else NetworkFromStored(storage.GetItem(NetworkKey))
  }

  /** `persistNetwork(network)`: writes the preference, which the next
      `GetPersistedNetwork` reads back (an empty name reads back as mainnet). */
  method PersistNetwork(storage: LocalStorage?, network: string)
    modifies storage
    ensures storage != null ==> storage.items == old(storage.items)[NetworkKey := network]
    ensures storage != null && network != "" ==> GetPersistedNetwork(storage) == network
    ensures storage != null && network == "" ==> GetPersistedNetwork(storage) == Mainnet
  {
    if storage == null {
      return;
    }
    storage.SetItem(NetworkKey, network);
  }

  /** Storing a network name and reading it back gives the name back, for
      every name the source's `Network` type allows and for any other
      non-empty string. */
  lemma PersistedNetworkRoundTrip(items: map<string, string>, network: string)
    requires network != ""
    ensures NetworkFromStored(Some(items[NetworkKey := network][NetworkKey])) == network
  {
  }

  // ---------------------------------------------------------------------
  // Address display

  /** `truncateAddress(address)`: null or empty gives "", at most 12
      characters are shown as they are, a longer address keeps its first 6
      and last 4 characters around "...". */
  function TruncateAddress(address: Option<string>): (r: string)
    ensures address == None || address == Some("") ==> r == ""
    ensures address.Some? && |address.value| <= 12 ==> r == address.value
    ensures address.Some? && |address.value| > 12 ==>
      |r| == 13 && r[..6] == address.value[..6] && r[6..9] == "..." &&
      r[9..] == address.value[|address.value| - 4..]
    ensures address.Some? ==> |r| <= |address.value|
    ensures |r| <= 13 || r == address.value
  {
    match address
    case None => ""
    case Some(s) =>
      if s == "" then ""
      else if |s| <= 12 then s
      else s[..6] + "..." + s[|s| - 4..]
  }

  /** Truncating a displayed address again changes nothing. */
  lemma TruncateAddressIdempotent(address: Option<string>)
    ensures TruncateAddress(Some(TruncateAddress(address))) == TruncateAddress(address)
  {
  }

  /** Two long addresses display alike exactly when they agree on their
      first 6 and last 4 characters. */
  lemma TruncateAddressCollides(a: string, b: string)
    requires |a| > 12 && |b| > 12
    ensures TruncateAddress(Some(a)) == TruncateAddress(Some(b)) <==>
      a[..6] == b[..6] && a[|a| - 4..] == b[|b| - 4..]
  {
  }

  // ---------------------------------------------------------------------
  // The wallet session

  /** The callback a caller may hand to `authenticate`, by identity. */
  type CallbackId = nat

  /** A callback scheduled with `setTimeout` and not yet run. */
  datatype Timer =
    | RunOnSuccess(callback: CallbackId)  // after 100 ms, in `onFinish`
    | ClearCopyFlag                       // after 1000 ms, in `copyAddressToClipboard`

  /** The address selected by the network (line 101): the mainnet address
      for "mainnet", the testnet address for anything else. */
  function SelectAddress(network: string, testnet: Option<string>, mainnet: Option<string>): (a: Option<string>)
    ensures a == testnet || a == mainnet
    ensures a == mainnet <== network == Mainnet
    ensures a == testnet <== network != Mainnet
  {
    if network == Mainnet then mainnet else testnet
  }

  /** The state `useStacksWallet` keeps in its refs. The storage, the
      session and the clipboard are shared with the rest of the page. */
  class Wallet {
    const storage: LocalStorage?
    const session: UserSession
    const clipboard: Clipboard
    /** Whether the `showConnect` import resolved. */
    const connectLoaded: bool

    var isWalletOpen: bool
    var isWalletConnected: bool
    var network: string
    var didCopyAddress: bool
    var testnetAddress: Option<string>
    var mainnetAddress: Option<string>
    var currentAddress: Option<string>

    /** Wallet popups opened by `authenticate` whose `onFinish` or
        `onCancel` has not run yet, each with the callback it captured. */
    var pendingAuth: seq<Option<CallbackId>>
    /** Callbacks waiting in `setTimeout`. */
    var timers: seq<Timer>
    /** Success callbacks run so far, in order. */
    var callbacksRun: seq<CallbackId>

    /** The address invariant: disconnected means no addresses; connected
        means both addresses are known and the current one is the one the
        network selects. */
    ghost predicate Valid()
      reads this
    {
      if !isWalletConnected then
        testnetAddress == None && mainnetAddress == None && currentAddress == None
      else
        testnetAddress.Some? && mainnetAddress.Some? &&
        currentAddress == SelectAddress(network, testnetAddress, mainnetAddress)
    }

    /** The address fields agree with the session's user data. */
    ghost predicate FromSession(data: StxAddresses)
      reads this
    {
      isWalletConnected ==>
        testnetAddress == Some(data.testnet) && mainnetAddress == Some(data.mainnet)
    }

    /** `useStacksWallet()` before mounting. */
    constructor (storage: LocalStorage?, session: UserSession, clipboard: Clipboard, connectLoaded: bool)
      ensures this.storage == storage && this.session == session
      ensures this.clipboard == clipboard && this.connectLoaded == connectLoaded
      ensures !isWalletOpen && !isWalletConnected && !didCopyAddress
      ensures network == GetPersistedNetwork(storage)
      ensures testnetAddress == None && mainnetAddress == None && currentAddress == None
      ensures pendingAuth == [] && timers == [] && callbacksRun == []
      ensures Valid()
    {
      this.storage := storage;
      this.session := session;
      this.clipboard := clipboard;
      this.connectLoaded := connectLoaded;
      isWalletOpen := false;
      isWalletConnected := false;
      network := GetPersistedNetwork(storage);
      didCopyAddress := false;
      testnetAddress := None;
      mainnetAddress := None;
      currentAddress := None;
      pendingAuth := [];
      timers := [];
      callbacksRun := [];
    }

    /** `updateAddresses()`: clears the addresses when disconnected, loads
        them from the session when connected. */
    method UpdateAddresses()
      modifies this`testnetAddress, this`mainnetAddress, this`currentAddress
      ensures Valid() && FromSession(session.userData)
    {
      if !isWalletConnected {
        testnetAddress := None;
        mainnetAddress := None;
        currentAddress := None;
        return;
      }
      var userData := session.LoadUserData();
      testnetAddress := Some(userData.testnet);
      mainnetAddress := Some(userData.mainnet);
      currentAddress := SelectAddress(network, testnetAddress, mainnetAddress);
    }

    /** The `onMounted` hook: hydrates an existing signed-in session. */
    method Mount()
      modifies this
      ensures isWalletConnected == (old(isWalletConnected) || session.signedIn)
      ensures session.signedIn ==> Valid() && FromSession(session.userData)
      ensures !session.signedIn ==>
        testnetAddress == old(testnetAddress) && mainnetAddress == old(mainnetAddress) &&
        currentAddress == old(currentAddress)
      ensures isWalletOpen == old(isWalletOpen) && network == old(network)
      ensures didCopyAddress == old(didCopyAddress)
      ensures pendingAuth == old(pendingAuth) && timers == old(timers)
      ensures callbacksRun == old(callbacksRun)
      ensures old(Valid()) ==> Valid()
    {
      if session.IsUserSignedIn() {
        isWalletConnected := true;
        UpdateAddresses();
      }
    }

    /** `setNetwork(newNetwork)`: switches network, persists it and
        reselects the current address. */
    method SetNetwork(newNetwork: string)
      modifies this, storage
      ensures network == newNetwork
      ensures storage != null ==> storage.items == old(storage.items)[NetworkKey := newNetwork]
      ensures storage != null && newNetwork != "" ==> GetPersistedNetwork(storage) == newNetwork
      ensures Valid() && FromSession(session.userData)
      ensures isWalletConnected == old(isWalletConnected) && isWalletOpen == old(isWalletOpen)
      ensures didCopyAddress == old(didCopyAddress)
      ensures pendingAuth == old(pendingAuth) && timers == old(timers)
      ensures callbacksRun == old(callbacksRun)
    {
      network := newNetwork;
      PersistNetwork(storage, newNetwork);
      UpdateAddresses();
    }

    /** `authenticate(onSuccess)`: opens the wallet popup, unless
        `showConnect` failed to load. */
    method Authenticate(onSuccess: Option<CallbackId>)
      modifies this
      ensures connectLoaded ==> isWalletOpen && pendingAuth == old(pendingAuth) + [onSuccess]
      ensures !connectLoaded ==> isWalletOpen == old(isWalletOpen) && pendingAuth == old(pendingAuth)
      ensures isWalletConnected == old(isWalletConnected) && network == old(network)
      ensures testnetAddress == old(testnetAddress) && mainnetAddress == old(mainnetAddress)
      ensures currentAddress == old(currentAddress) && didCopyAddress == old(didCopyAddress)
      ensures timers == old(timers) && callbacksRun == old(callbacksRun)
      ensures old(Valid()) ==> Valid()
    {
      if !connectLoaded {
        return;
      }
      isWalletOpen := true;
      pendingAuth := pendingAuth + [onSuccess];
    }

    /** `onFinish` of the popup `pendingAuth[i]`: closes it, takes the
        session's signed-in status and schedules the captured callback
        exactly when signed in and a callback was given. */
    method OnFinish(i: nat)
      requires i < |pendingAuth|
      modifies this
      ensures !isWalletOpen
      ensures isWalletConnected == session.signedIn
      ensures Valid() && FromSession(session.userData)
      ensures pendingAuth == old(pendingAuth[..i] + pendingAuth[i + 1..])
      ensures session.signedIn && old(pendingAuth[i]).Some? ==>
        timers == old(timers) + [RunOnSuccess(old(pendingAuth[i]).value)]
      ensures !(session.signedIn && old(pendingAuth[i]).Some?) ==> timers == old(timers)
      ensures network == old(network) && didCopyAddress == old(didCopyAddress)
      ensures callbacksRun == old(callbacksRun)
    {
      var onSuccess := pendingAuth[i];
      pendingAuth := pendingAuth[..i] + pendingAuth[i + 1..];
      isWalletOpen := false;
      var isSignedIn := session.IsUserSignedIn();
      isWalletConnected := isSignedIn;
      UpdateAddresses();
      if isSignedIn && onSuccess.Some? {
        timers := timers + [RunOnSuccess(onSuccess.value)];
      }
    }

    /** `onCancel` of the popup `pendingAuth[i]`: only closes it. */
    method OnCancel(i: nat)
      requires i < |pendingAuth|
      modifies this
      ensures !isWalletOpen
      ensures pendingAuth == old(pendingAuth[..i] + pendingAuth[i + 1..])
      ensures isWalletConnected == old(isWalletConnected) && network == old(network)
      ensures testnetAddress == old(testnetAddress) && mainnetAddress == old(mainnetAddress)
      ensures currentAddress == old(currentAddress) && didCopyAddress == old(didCopyAddress)
      ensures timers == old(timers) && callbacksRun == old(callbacksRun)
      ensures old(Valid()) ==> Valid()
    {
      pendingAuth := pendingAuth[..i] + pendingAuth[i + 1..];
      isWalletOpen := false;
    }

    /** `disconnect()`: signs out and clears the connection, from any state. */
    method Disconnect()
      modifies this, session
      ensures !session.signedIn && session.userData == old(session.userData)
      ensures !isWalletConnected
      ensures testnetAddress == None && mainnetAddress == None && currentAddress == None
      ensures Valid()
      ensures network == old(network) && isWalletOpen == old(isWalletOpen)
      ensures didCopyAddress == old(didCopyAddress)
      ensures pendingAuth == old(pendingAuth) && timers == old(timers)
      ensures callbacksRun == old(callbacksRun)
    {
      session.SignUserOut();
      isWalletConnected := false;
      UpdateAddresses();
    }

    /** `copyAddressToClipboard()`: writes a non-empty current address and
        raises the copy flag until a later timer clears it; otherwise does
        nothing. */
    method CopyAddressToClipboard()
      modifies this, clipboard
      ensures currentAddress == old(currentAddress)
      ensures old(currentAddress).Some? && old(currentAddress).value != "" ==>
        clipboard.written == old(clipboard.written) + [old(currentAddress).value] &&
        didCopyAddress && timers == old(timers) + [ClearCopyFlag]
      ensures old(currentAddress) == None || old(currentAddress) == Some("") ==>
        clipboard.written == old(clipboard.written) &&
        didCopyAddress == old(didCopyAddress) && timers == old(timers)
      ensures isWalletOpen == old(isWalletOpen) && isWalletConnected == old(isWalletConnected)
      ensures network == old(network) && testnetAddress == old(testnetAddress)
      ensures mainnetAddress == old(mainnetAddress)
      ensures pendingAuth == old(pendingAuth) && callbacksRun == old(callbacksRun)
      ensures old(Valid()) ==> Valid()
    {
      if currentAddress.Some? && currentAddress.value != "" {
        clipboard.WriteText(currentAddress.value);
        didCopyAddress := true;
        timers := timers + [ClearCopyFlag];
      }
    }

    /** The delay of `timers[i]` elapses and its callback runs: the copy
        flag is cleared, or the success callback is invoked. JavaScript
        orders timers by due time; the model lets any pending one fire. */
    method FireTimer(i: nat)
      requires i < |timers|
      modifies this
      ensures timers == old(timers[..i] + timers[i + 1..])
      ensures old(timers[i]) == ClearCopyFlag ==>
        !didCopyAddress && callbacksRun == old(callbacksRun)
      ensures old(timers[i]).RunOnSuccess? ==>
        didCopyAddress == old(didCopyAddress) &&
        callbacksRun == old(callbacksRun) + [old(timers[i]).callback]
      ensures isWalletOpen == old(isWalletOpen) && isWalletConnected == old(isWalletConnected)
      ensures network == old(network) && testnetAddress == old(testnetAddress)
      ensures mainnetAddress == old(mainnetAddress) && currentAddress == old(currentAddress)
      ensures pendingAuth == old(pendingAuth)
      ensures old(Valid()) ==> Valid()
    {
      var t := timers[i];
      timers := timers[..i] + timers[i + 1..];
      match t
      case ClearCopyFlag =>
        didCopyAddress := false;
      case RunOnSuccess(callback) =>
        callbacksRun := callbacksRun + [callback];
    }
  }
}
