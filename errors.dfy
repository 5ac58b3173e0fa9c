/** The errors the server raises, each with the exact message the caller
    receives. */
module Errors {
  import Text

  datatype ApiError =
    /** the protected-procedure middleware found no user in the context */
    | Unauthorized
    /** db.ts found no database connection */
    | DatabaseUnavailable
    /** the record is missing or belongs to another user: the two are not told apart */
    | NotFound
    /** PostgreSQL refused a value longer than its `varchar(limit)` column */
    | ValueTooLong(limit: nat)
    /** the object store refused the upload; its own message passes through */
    | UploadFailed(message: string)
    /** extractFromImage caught an error with this message */
    | ExtractionFailed(cause: string)
    /** processTextInput caught an error with this message */
    | TextProcessingFailed(cause: string)
    /** upsertUser was given an empty openId */
    | OpenIdRequired
    /** an update with nothing to set, refused by Drizzle */
    | NoValuesToSet
  {
    function Message(): string {
      match this
      case Unauthorized => "Unauthorized"
      case DatabaseUnavailable => "Database not available"
      case NotFound => "Application not found"
      case ValueTooLong(n) => "value too long for type character varying(" + Text.NatToString(n) + ")"
      case UploadFailed(m) => m
      case ExtractionFailed(cause) => "Failed to extract data: " + cause
      case TextProcessingFailed(cause) => "Failed to process text: " + cause
      case OpenIdRequired => "User openId is required for upsert"
      case NoValuesToSet => "No values to set"
    }
  }
}
