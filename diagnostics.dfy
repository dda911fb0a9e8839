/**
 * Process-wide message configuration of libocxl: the one-time environment
 * initialisation, the global error/trace switches and error handler, the
 * routing of an error message to the per-AFU or the global handler, and the
 * error-code-to-text table.
 */
module Diagnostics {
  import opened Base

  /** An error-message callback, identified by what it is: the library default or a client function. */
  datatype Handler = DefaultHandler | ClientHandler(id: nat)

  /**
   * The message sources a client may switch on. The header that gives
   * OCXL_ERRORS and OCXL_TRACING their bit values is not part of this model,
   * so a bitwise OR of them is modelled as the set of sources it names.
   */
  datatype MessageSource = Errors | Tracing

  /** The four environment variables libocxl consults; None when unset. */
  datatype Environment = Environment(
    info: Option<string>,              // LIBOCXL_INFO
    traceAll: Option<string>,          // LIBOCXL_TRACE_ALL
    verboseErrorsAll: Option<string>,  // LIBOCXL_VERBOSE_ERRORS_ALL
    sysPath: Option<string>)           // LIBOCXL_SYSPATH

  // ---------------------------------------------------------------------
  // Environment flags

  /** ASCII case folding as done by strcasecmp in the C locale. */
  function Lower(c: char): char
  {
    if 'A' <= c <= 'Z' then (c as int + 32) as char else c
  }

  /** strcasecmp(a, b) == 0 */
  predicate EqualsIgnoringCase(a: string, b: string)
  {
    |a| == |b| && forall i :: 0 <= i < |a| ==> Lower(a[i]) == Lower(b[i])
  }

  /** An environment flag is on when set to "yes" in any letter case, or to exactly "1". */
  predicate FlagEnabled(v: Option<string>)
  {
    v.Some? && (EqualsIgnoringCase(v.value, "yes") || v.value == "1")
  }

  /** The values that switch a flag on, listed outright. */
  lemma FlagEnabledValues(v: string)
    ensures FlagEnabled(Some(v)) <==>
      v == "1" ||
      (|v| == 3 && v[0] in {'y', 'Y'} && v[1] in {'e', 'E'} && v[2] in {'s', 'S'})
  {
    if |v| == 3 && v[0] in {'y', 'Y'} && v[1] in {'e', 'E'} && v[2] in {'s', 'S'} {
      assert forall i :: 0 <= i < 3 ==> Lower(v[i]) == Lower("yes"[i]);
    }
    if EqualsIgnoringCase(v, "yes") {
      assert Lower(v[0]) == 'y' && Lower(v[1]) == 'e' && Lower(v[2]) == 's';
    }
  }

  // ---------------------------------------------------------------------
  // Error messages

  const MAX_MESSAGE_LENGTH: nat := 255

  /**
   * The text an error handler receives: the formatted message cut to fit a
   * 255-byte buffer whose last byte is forced to NUL.
   */
  function Truncate(msg: string): (r: string)
    ensures |r| <= MAX_MESSAGE_LENGTH - 1
    ensures |r| <= |msg| && r == msg[..|r|]
    ensures |msg| < MAX_MESSAGE_LENGTH ==> r == msg
    ensures |msg| >= MAX_MESSAGE_LENGTH - 1 ==> |r| == MAX_MESSAGE_LENGTH - 1
  {
    if |msg| < MAX_MESSAGE_LENGTH then msg else msg[..MAX_MESSAGE_LENGTH - 1]
  }

  /** The per-AFU half of the message configuration (ocxl_afu's verbose_errors and error_handler). */
  datatype AfuMessages = AfuMessages(verbose: bool, handler: Handler)

  /** One call of an error handler: which handler, the error code and the text. */
  datatype Delivery = Delivery(handler: Handler, err: Err, message: string)

  /** The global state of src/internal.c and src/setup.c. */
  class Library {
    var inited: bool
    var verboseErrors: bool
    var verboseErrorsAll: bool
    var tracing: bool
    var tracingAll: bool
    var errorHandler: Handler
    var sysPath: Option<string>

    /** The state at program start, before any libocxl call. */
    constructor ()
      ensures !inited && !verboseErrors && !verboseErrorsAll && !tracing && !tracingAll
      ensures errorHandler == DefaultHandler && sysPath == None
    {
      inited := false;
      verboseErrors := false;
      verboseErrorsAll := false;
      tracing := false;
      tracingAll := false;
      errorHandler := DefaultHandler;
      sysPath := None;
    }

    /**
     * libocxl_init: the first call reads the environment, later calls do
     * nothing. Returns whether the library banner is printed.
     */
    method Init(env: Environment) returns (printInfo: bool)
      modifies this
      ensures old(inited) ==> !printInfo && unchanged(this)
      ensures !old(inited) ==>
        && inited
        && printInfo == FlagEnabled(env.info)
        && tracingAll == (old(tracingAll) || FlagEnabled(env.traceAll))
        && tracing == (old(tracing) || FlagEnabled(env.traceAll))
        && verboseErrorsAll == (old(verboseErrorsAll) || FlagEnabled(env.verboseErrorsAll))
        && verboseErrors == (old(verboseErrors) || FlagEnabled(env.verboseErrorsAll))
        && sysPath == (if env.sysPath.Some? then env.sysPath else old(sysPath))
        && errorHandler == old(errorHandler)
    {
      if inited {
        return false;
      }
      printInfo := FlagEnabled(env.info);
      if FlagEnabled(env.traceAll) {
        tracingAll := true;
        tracing := true;
      }
      if FlagEnabled(env.verboseErrorsAll) {
        verboseErrorsAll := true;
        verboseErrors := true;
      }
      if env.sysPath.Some? {
        sysPath := env.sysPath;
      }
      inited := true;
    }

    /** ocxl_enable_messages: both global switches are replaced, not merged. */
    method EnableMessages(sources: set<MessageSource>)
      modifies this`verboseErrors, this`tracing
      ensures verboseErrors <==> Errors in sources
      ensures tracing <==> Tracing in sources
    {
      verboseErrors := Errors in sources;
      tracing := Tracing in sources;
    }

    /** ocxl_set_error_message_handler */
    method SetErrorMessageHandler(handler: Handler)
      modifies this`errorHandler
      ensures errorHandler == handler
    {
      errorHandler := handler;
    }

    /**
     * errmsg: a message about an AFU goes to that AFU's handler when its
     * verbose flag is set; a message with no AFU goes to the global handler
     * when the global verbose flag is set. Otherwise nothing is delivered.
     */
    function Errmsg(afu: Option<AfuMessages>, err: Err, msg: string): (r: Option<Delivery>)
      reads this
      ensures afu.Some? ==> (r.Some? <==> afu.value.verbose)
      ensures afu.None? ==> (r.Some? <==> verboseErrors)
      ensures r.Some? ==> r.value.err == err && r.value.message == Truncate(msg)
      ensures r.Some? ==> r.value.handler == (if afu.Some? then afu.value.handler else errorHandler)
    {
      match afu
      case Some(a) =>
        if a.verbose then Some(Delivery(a.handler, err, Truncate(msg))) else None
      case None =>
        if verboseErrors then Some(Delivery(errorHandler, err, Truncate(msg))) else None
    }
  }

  // ---------------------------------------------------------------------
  // Error codes as text

  /** ocxl_err_to_string */
  function ErrToString(e: Err): (r: string)
    ensures r == "Unknown error" <==> e == NoDev || e == InvalidArgs
    ensures e == OK ==> r == "OK"
    ensures e == InternalError ==> r == "Internal error"
  {
    match e
    case OK => "OK"
    case NoMem => "No memory"
    case NoContext => "AFU context not available"
    case NoIrq => "AFU interrupt not available"
    case InternalError => "Internal error"
    case AlreadyDone => "Already done"
    case OutOfBounds => "Out of bounds"
    case NoMoreContexts => "No more contexts"
    case _ => "Unknown error"
  }

  /** Every code that has a text of its own has a different one from every other code. */
  lemma ErrToStringDistinct(a: Err, b: Err)
    requires ErrToString(a) == ErrToString(b)
    ensures a == b || ErrToString(a) == "Unknown error"
  {
  }
}
