/** The behaviour the unit tests of the wallet helper and of the name lookup
    check, derived from the contracts alone. */
module StacksConnectScenarios {
  import opened Wrappers
  import opened Browser
  import opened StacksLibrary
  import opened StacksConnect
  import opened BnsNames

  lemma TruncateAddressExamples()
    ensures TruncateAddress(Some("abc")) == "abc"
    ensures TruncateAddress(Some("0123456789abcdef")) == "012345...cdef"
    ensures TruncateAddress(None) == ""
  {
  }

  lemma RequestUrlExample()
    ensures RequestUrl("test-address-123") == "https://api.bnsv2.com/names/address/test-address-123/valid"
  {
  }

  lemma ResponseErrorExample()
    ensures ResponseErrorMessage(404, "Not Found") == "BNSv2 API response error: 404 Not Found"
  {
  }

  lemma ConvertedAddressExample(server: string -> Result<HttpResponse, string>)
    ensures FetchUserOwnedBtcNames(Plain("converted-address"), server) ==
      HandleResponse(server("https://api.bnsv2.com/names/address/converted-address/valid"))
  {
    assert RequestUrl("converted-address") == "https://api.bnsv2.com/names/address/converted-address/valid";
  }

  lemma FilterExample()
    ensures BtcFullNames([
      NameEntry("test.btc", "test", "btc", "test-address-123", "2023-01-01", "123456", "1000", false),
      NameEntry("example.id", "example", "id", "test-address-123", "2023-01-01", "123456", "1000", false)
    ]) == ["test.btc"]
  {
  }

  method InitialState() {
    var storage := new LocalStorage(map[]);
    var session := new UserSession(false, StxAddresses("test-address-123", "main-address-456"));
    var clipboard := new Clipboard();
    var wallet := new Wallet(storage, session, clipboard, true);
    wallet.Mount();
    assert !wallet.isWalletConnected && wallet.currentAddress == None;
    assert wallet.network == "mainnet";
    assert wallet.testnetAddress == None && wallet.mainnetAddress == None;
    assert !wallet.didCopyAddress;
  }

  method PersistedNetworkIsUsed() {
    var storage := new LocalStorage(map[]);
    storage.SetItem("stacks-network", "testnet");
    var session := new UserSession(false, StxAddresses("test-address-123", "main-address-456"));
    var clipboard := new Clipboard();
    var wallet := new Wallet(storage, session, clipboard, true);
    assert wallet.network == "testnet";
  }

  method SetNetworkPersists() {
    var storage := new LocalStorage(map[]);
    var session := new UserSession(false, StxAddresses("test-address-123", "main-address-456"));
    var clipboard := new Clipboard();
    var wallet := new Wallet(storage, session, clipboard, true);
    wallet.SetNetwork(Testnet);
    assert wallet.network == "testnet";
    assert storage.items["stacks-network"] == "testnet";
    var again := new Wallet(storage, session, clipboard, true);
    assert again.network == "testnet";
  }

  method AuthenticateRunsCallback() {
    var storage := new LocalStorage(map[]);
    var session := new UserSession(false, StxAddresses("test-address-123", "main-address-456"));
    var clipboard := new Clipboard();
    var wallet := new Wallet(storage, session, clipboard, true);
    wallet.Authenticate(Some(7));
    assert wallet.isWalletOpen;
    session.signedIn := true;  // the popup signs the user in
    wallet.OnFinish(0);
    assert !wallet.isWalletOpen && wallet.isWalletConnected;
    assert wallet.currentAddress == Some("main-address-456");
    assert wallet.timers == [RunOnSuccess(7)];
    wallet.FireTimer(0);
    assert wallet.callbacksRun == [7];
  }

  method CancelRunsNoCallback() {
    var storage := new LocalStorage(map[]);
    var session := new UserSession(false, StxAddresses("test-address-123", "main-address-456"));
    var clipboard := new Clipboard();
    var wallet := new Wallet(storage, session, clipboard, true);
    wallet.Authenticate(Some(7));
    wallet.OnCancel(0);
    assert !wallet.isWalletOpen && !wallet.isWalletConnected;
    assert wallet.timers == [] && wallet.pendingAuth == [];
  }

  method DisconnectClears() {
    var storage := new LocalStorage(map[]);
    var session := new UserSession(true, StxAddresses("test-address", "main-address"));
    var clipboard := new Clipboard();
    var wallet := new Wallet(storage, session, clipboard, true);
    wallet.Mount();
    assert wallet.isWalletConnected && wallet.currentAddress == Some("main-address");
    wallet.Disconnect();
    assert !wallet.isWalletConnected;
    assert wallet.testnetAddress == None && wallet.mainnetAddress == None;
    assert wallet.currentAddress == None;
  }

  method CopyThenTimer() {
    var storage := new LocalStorage(map[]);
    var session := new UserSession(true, StxAddresses("test-testnet", "test-address"));
    var clipboard := new Clipboard();
    var wallet := new Wallet(storage, session, clipboard, true);
    wallet.Mount();
    wallet.CopyAddressToClipboard();
    assert clipboard.written == ["test-address"];
    assert wallet.didCopyAddress;
    wallet.FireTimer(0);
    assert !wallet.didCopyAddress;
  }
}
