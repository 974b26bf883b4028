/** The credential record shown by the page and by each card. */
module Entries {

  /**
   * One stored credential. `id` and `createdAt` are opaque strings: the page
   * derives them from the clock, which is outside this model.
   */
  datatype PasswordEntry = PasswordEntry(
    id: string,
    website: string,
    username: string,
    password: string,
    createdAt: string)
}
