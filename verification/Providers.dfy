/** Outcome taxonomy of one provider call. Texts carried by errors play no part in routing and are left out. */
module Providers {
  import opened Wrappers

  datatype ErrorCode =
    | AllProvidersFailed | RateLimitedCode | QuotaExceededCode | UnsupportedCapability | NotFoundCode | InvalidInput | Conflict

  datatype ProviderError =
    | Transient
    | RateLimited(retryAfter: Option<nat>)
    | QuotaExhausted(resetsAt: Option<int>)
    | Unsupported
    | NotFound
    | Invalid
    | Fatal
  {
    /** Errors after which another vendor may have the answer. */
    predicate AllowsFailover() {
      Transient? || RateLimited? || QuotaExhausted? || Unsupported?
    }

    /** Errors that may be gone at the next call to the same vendor. */
    predicate IsRetryable() {
      Transient?
    }

    /** Whether the vendor's breaker counts it: the vendor itself misbehaved. */
    predicate IsBreakerFailure() {
      Transient? || Fatal? || Unsupported?
    }

    function Code(): ErrorCode {
      match this
      case Transient => AllProvidersFailed
      case Fatal => AllProvidersFailed
      case RateLimited(_) => RateLimitedCode
      case QuotaExhausted(_) => QuotaExceededCode
      case Unsupported => UnsupportedCapability
      case NotFound => NotFoundCode
      case Invalid => InvalidInput
    }
  }
}
