/** The data-transfer types the core uses (web/src/types/index.ts). */
module Types {

  /** `PostingDirection = 'debit' | 'credit'`. */
  datatype PostingDirection = Debit | Credit

  /** `PostingInput`: the amount stays text, as typed into the form. */
  datatype PostingInput = PostingInput(accountCode: string, direction: PostingDirection, amount: string)

  /** The signed-in user the `/auth/me` endpoint returns; the fields the core reads. */
  datatype UserResponse = UserResponse(id: string, email: string, organizationId: string)
}
