/**
 * The exception hierarchy of core/exceptions.py and the error translation of
 * utils/error_handler.py. A Python call that returns or raises is an
 * Outcome; a decorator is a function from the wrapped call's Outcome to the
 * Outcome its caller sees. Logging is left out; the log lines' text is kept
 * where the source builds it.
 */
module Errors {
  import opened Values

  /** The classes of core/exceptions.py; each one derives from EoraRAGException. */
  datatype DomainError =
    | EoraRAGException
    | ConfigurationError
    | DocumentLoadError
    | VectorStoreError
    | LLMError
    | WebCrawlerError

  /** A raisable class: one of the domain classes, or any other (ValueError, RuntimeError, ...). */
  datatype ExceptionType = Domain(kind: DomainError) | Foreign(name: string)

  /** A raised exception; `message` is what str(e) yields. */
  datatype Exception = Exception(ty: ExceptionType, message: string)

  /** isinstance(e, EoraRAGException). */
  predicate IsDomain(e: Exception)
  {
    e.ty.Domain?
  }

  function ValueError(message: string): Exception
  {
    Exception(Foreign("ValueError"), message)
  }

  /** What a Python call does: return a value or raise. */
  datatype Outcome<+T> = Returned(value: T) | Raised(exc: Exception)

  /** The text "Ошибка в {name}: {e}" that handle_errors logs and raises. */
  function WrappedMessage(funcName: string, e: Exception): string
  {
    "Ошибка в " + funcName + ": " + e.message
  }

  /**
   * handle_errors(exception_type, default_return)(func): what a call of the
   * decorated function named funcName does when func's own call ends in `call`.
   * default_return is accepted and never used.
   */
  function HandleErrors<T>(exceptionType: ExceptionType, defaultReturn: T, funcName: string, call: Outcome<T>): (r: Outcome<T>)
    ensures r.Returned? <==> call.Returned?
    ensures r.Returned? ==> r.value == call.value
    ensures call.Raised? && IsDomain(call.exc) ==> r == call
    ensures call.Raised? && !IsDomain(call.exc) ==>
      r.Raised? && r.exc.ty == exceptionType && r.exc.message == "Ошибка в " + funcName + ": " + call.exc.message
  {
    match call
    case Returned(_) => call
    case Raised(e) =>
      if IsDomain(e) then call else Raised(Exception(exceptionType, WrappedMessage(funcName, e)))
  }

  /** Translation with a domain target lets only domain errors escape. */
  lemma HandleErrorsDomainOnly<T>(kind: DomainError, defaultReturn: T, funcName: string, call: Outcome<T>)
    ensures var r := HandleErrors(Domain(kind), defaultReturn, funcName, call);
      r.Raised? ==> IsDomain(r.exc) && (r.exc.ty == Domain(kind) || r == call)
  {
  }

  /**
   * Stacked decorators convert once: an outer handle_errors around an inner one
   * with a domain target changes nothing.
   */
  lemma HandleErrorsConvertsOnce<T>(inner: DomainError, outer: ExceptionType, d1: T, d2: T, n1: string, n2: string, call: Outcome<T>)
    ensures HandleErrors(outer, d2, n2, HandleErrors(Domain(inner), d1, n1, call)) == HandleErrors(Domain(inner), d1, n1, call)
  {
  }

  /** The default is never substituted: a decorated call returns it only if func itself did. */
  lemma DefaultNeverReturned<T>(exceptionType: ExceptionType, defaultReturn: T, funcName: string, call: Outcome<T>)
    requires HandleErrors(exceptionType, defaultReturn, funcName, call) == Returned(defaultReturn)
    ensures call == Returned(defaultReturn)
  {
  }

  /** handle_document_load_errors: handle_errors(DocumentLoadError, []). */
  function HandleDocumentLoadErrors<T>(defaultReturn: T, funcName: string, call: Outcome<T>): (r: Outcome<T>)
    ensures r.Returned? ==> r == call
    ensures r.Raised? ==> IsDomain(r.exc)
    ensures call.Raised? && !IsDomain(call.exc) ==> r.exc.ty == Domain(DocumentLoadError)
  {
    HandleErrors(Domain(DocumentLoadError), defaultReturn, funcName, call)
  }

  /** handle_vectorstore_errors: handle_errors(VectorStoreError, []). */
  function HandleVectorStoreErrors<T>(defaultReturn: T, funcName: string, call: Outcome<T>): (r: Outcome<T>)
    ensures r.Returned? ==> r == call
    ensures r.Raised? ==> IsDomain(r.exc)
    ensures call.Raised? && !IsDomain(call.exc) ==> r.exc.ty == Domain(VectorStoreError)
  {
    HandleErrors(Domain(VectorStoreError), defaultReturn, funcName, call)
  }

  /** handle_llm_errors: handle_errors(LLMError, {"answer": ..., "sources": []}). */
  function HandleLLMErrors<T>(defaultReturn: T, funcName: string, call: Outcome<T>): (r: Outcome<T>)
    ensures r.Returned? ==> r == call
    ensures r.Raised? ==> IsDomain(r.exc)
    ensures call.Raised? && !IsDomain(call.exc) ==> r.exc.ty == Domain(LLMError)
  {
    HandleErrors(Domain(LLMError), defaultReturn, funcName, call)
  }

  /** handle_webcrawler_errors: handle_errors(WebCrawlerError, []). */
  function HandleWebCrawlerErrors<T>(defaultReturn: T, funcName: string, call: Outcome<T>): (r: Outcome<T>)
    ensures r.Returned? ==> r == call
    ensures r.Raised? ==> IsDomain(r.exc)
    ensures call.Raised? && !IsDomain(call.exc) ==> r.exc.ty == Domain(WebCrawlerError)
  {
    HandleErrors(Domain(WebCrawlerError), defaultReturn, funcName, call)
  }

  /**
   * ErrorHandler.log_and_raise never returns: this is the exception it raises.
   * The source's default exception_type is Domain(EoraRAGException).
   */
  function LogAndRaise(error: Exception, context: string, exceptionType: ExceptionType): (raised: Exception)
    ensures IsDomain(error) ==> raised == error
    ensures !IsDomain(error) ==> raised.ty == exceptionType && raised.message == context + ": " + error.message
  {
    if IsDomain(error) then error else Exception(exceptionType, context + ": " + error.message)
  }

  /** ErrorHandler.safe_execute: func is called once; an exception yields the default. */
  function SafeExecute<T>(call: Outcome<T>, defaultReturn: T, context: string): (r: T)
    ensures call.Returned? ==> r == call.value
    ensures call.Raised? ==> r == defaultReturn
  {
    match call
    case Returned(v) => v
    case Raised(_) => defaultReturn
  }

  /** The line log_warning and log_info emit: "context: message", or the bare message. */
  function LogMessage(message: string, context: Option<string>): (line: string)
    ensures context.Some? && context.value != [] ==> line == context.value + ": " + message
    ensures context.None? || context.value == [] ==> line == message
  {
    match context
    case Some(c) => if c != [] then c + ": " + message else message
    case None => message
  }
}
