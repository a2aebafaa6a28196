/** The exceptions a request can end in. */
module Errors {
  /** Why a journal is refused. */
  datatype LedgerRefusal = TooFewPostings | Unbalanced | NoAmount | InvalidPosting

  /** Why an onboarding, recipient or document check refuses. */
  datatype Refusal =
    | UnsupportedDocumentType
    | FullNameRequired
    | NotAdult
    | DocumentRequired
    | InvalidContact
    | TermsNotAccepted
    | OnboardingIncomplete
    | AccountLimitReached
    | AccountIdRequired
    | KeyRequired
    | AmbiguousDocument
    | OneRecipientRequired
    | InvalidCpf
    | InvalidCnpj
    | UnknownDocumentKind
    | InvalidAccountNumber

  datatype Error =
    | AccountNotFound(id: string)
    | ForbiddenAccountAccess(id: string)
    | InsufficientFunds(id: string)
    | InvalidAmount
    | DecimalOverflow           // decimal.InvalidOperation escaping from `quantize`
    | LimitExceeded
    | SameAccountTransfer
    | OnboardingError(refusal: Refusal)
    | IdempotentReplay(journal: nat)
    | LedgerError(reason: LedgerRefusal)
    | IntegrityError            // a unique or primary key refused by the database
    | MultipleResultsFound
    | ValueError                // int("") and the like
}
