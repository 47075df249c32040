/** The client's `ApiResponse` wrapper (`frontend/lib/types.ts`) and how a call can end. */
module ClientTypes {

  /** `ApiResponse<T>`: the API wrapper's answer. */
  datatype ApiResponse<T> = ApiSuccess(data: T) | ApiFailure(error: string)

  /** An awaited API call either answers or throws (a network error, say). */
  datatype Outcome<T> = Answered(response: ApiResponse<T>) | Threw

  /** Whether the call answered with `success: true`. */
  predicate Succeeded<T>(outcome: Outcome<T>)
  {
    outcome.Answered? && outcome.response.ApiSuccess?
  }
}
