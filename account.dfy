/** Account: a holder's account, which transfers may use only while active. */
module AccountEntity {
  import opened Wrappers
  import opened Primitives
  import opened Text
  import opened AccountIdValue

  /** Which argument `Account.Create` refuses, checked in order: the account
      number first, then the holder name. */
  function CreationError(accountNumber: Option<string>, holderName: Option<string>): (e: Option<Exception>)
    ensures e.None? <==> !IsNullOrWhiteSpace(accountNumber) && !IsNullOrWhiteSpace(holderName)
    ensures IsNullOrWhiteSpace(accountNumber) ==>
              e == Some(ArgumentException("Account number cannot be null or empty", Some("accountNumber")))
    ensures !IsNullOrWhiteSpace(accountNumber) && IsNullOrWhiteSpace(holderName) ==>
              e == Some(ArgumentException("Holder name cannot be null or empty", Some("holderName")))
  {
    if IsNullOrWhiteSpace(accountNumber) then
      Some(ArgumentException("Account number cannot be null or empty", Some("accountNumber")))
    else if IsNullOrWhiteSpace(holderName) then
      Some(ArgumentException("Holder name cannot be null or empty", Some("holderName")))
    else None
  }

  class Account {
    const id: AccountId
    const accountNumber: string
    const holderName: string
    const createdAt: Timestamp
    var isActive: bool

    /** The constructor `Create` uses: a new account starts active. */
    constructor Open(id: AccountId, accountNumber: string, holderName: string, now: Timestamp)
      ensures this.id == id && this.accountNumber == accountNumber && this.holderName == holderName
      ensures createdAt == now && isActive
    {
      this.id := id;
      this.accountNumber := accountNumber;
      this.holderName := holderName;
      this.createdAt := now;
      this.isActive := true;
    }

    /** `Account.Create`: refuses a blank number or name, else a new active account. */
    static method Create(id: AccountId, accountNumber: Option<string>, holderName: Option<string>, now: Timestamp)
      returns (r: Outcome<Account>)
      ensures r.Ok? <==> CreationError(accountNumber, holderName).None?
      ensures r.Throws? ==> r.exception == CreationError(accountNumber, holderName).value
      ensures r.Ok? ==> fresh(r.value) && r.value.isActive && r.value.id == id && r.value.createdAt == now
      ensures r.Ok? ==> r.value.accountNumber == accountNumber.value && r.value.holderName == holderName.value
    {
      var error := CreationError(accountNumber, holderName);
      if error.Some? {
        return Throws(error.value);
      }
      var account := new Account.Open(id, accountNumber.value, holderName.value, now);
      r := Ok(account);
    }

    /** `Deactivate`: the account is inactive afterwards, whatever it was. */
    method Deactivate()
      modifies this
      ensures !isActive
    {
      isActive := false;
    }

    /** `Activate`: the account is active afterwards, whatever it was. */
    method Activate()
      modifies this
      ensures isActive
    {
      isActive := true;
    }
  }
}
