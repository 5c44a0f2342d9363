/** The part of the `@stacks/connect` library's `UserSession` that the wallet
    helper reads: whether a user is signed in and the user's two STX
    addresses. The wallet popup, which is foreign code, signs a user in by
    setting these fields. */
module StacksLibrary {

  /** `userData.profile.stxAddress`: the user's address on each network. */
  datatype StxAddresses = StxAddresses(testnet: string, mainnet: string)

  class UserSession {
    var signedIn: bool
    var userData: StxAddresses

    constructor (signedIn: bool, userData: StxAddresses)
      ensures this.signedIn == signedIn && this.userData == userData
    {
      this.signedIn := signedIn;
      this.userData := userData;
    }

    /** `isUserSignedIn()` */
    function IsUserSignedIn(): (r: bool)
      reads this
      ensures r <==> signedIn
    {
      signedIn
    }

    /** `loadUserData().profile.stxAddress` */
    function LoadUserData(): (r: StxAddresses)
      reads this
      ensures r == userData
    {
      userData
    }

    /** `signUserOut(url)`: afterwards no user is signed in. */
    method SignUserOut()
      modifies this
      ensures !signedIn && userData == old(userData)
    {
      signedIn := false;
    }
  }
}
