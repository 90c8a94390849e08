/**
 * The account store the processor consults (InMemoryUserRepository and
 * the User it hands out), as a map from account name to user.
 */
module Users {
  import opened Wrappers

  datatype User = User(account: string, password: string, email: string)
  {
    /** checkPassword: the candidate matches the stored password. */
    predicate CheckPassword(candidate: string)
    {
      password == candidate
    }
  }

  datatype UserRegistration = UserRegistration(account: string, password: string, email: string)

  class InMemoryUserRepository {
    var database: map<string, User>

    constructor (accounts: map<string, User>)
      ensures database == accounts
    {
      database := accounts;
    }

    /** findByAccount: the user filed under account, or empty. */
    function FindByAccount(account: string): (r: Option<User>)
      reads this
      ensures r.Some? <==> account in database
      ensures r.Some? ==> r.value == database[account]
    {
      if account in database then Some(database[account]) else None
    }

    /** save: files a user built from the registration under its account. */
    method Save(registration: UserRegistration) returns (user: User)
      modifies this
      ensures user == User(registration.account, registration.password, registration.email)
      ensures database == old(database)[registration.account := user]
    {
      user := User(registration.account, registration.password, registration.email);
      database := database[registration.account := user];
    }
  }
}
