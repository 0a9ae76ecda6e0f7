/** The fixture and cart records the page objects and tests exchange. */
module Interfaces {
  import opened Wrappers

  /** Login credentials of one user profile; `userType` (the source's `type`) identifies it. */
  datatype User = User(userType: string, username: string, password: string, expectedError: Option<string>)

  /** The credentials fixture: users who can log in, then users who cannot. */
  datatype UserData = UserData(users: seq<User>, invalidUsers: seq<User>)

  /** One customer profile used to fill the checkout form. */
  datatype CustomerInfo = CustomerInfo(firstName: string, lastName: string, zipCode: string)

  /** A line of the cart as the cart page reads it: the shown name and price texts. */
  datatype CartItem = CartItem(name: string, price: string)
}
