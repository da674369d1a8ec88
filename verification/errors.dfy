/** Failure kinds shared by the whole model.
 *  The C# code generator signals problems with .NET exceptions, the C++ library
 *  with exceptions or with `std::error_code` values; both become a `Failure`
 *  carried by `Result`. */
module Errors {

  /** The exception types and error codes the modelled code raises or reports. */
  datatype Failure =
    // .NET exceptions of the code generator
    | ArgumentNull          // System.ArgumentNullException
    | NullReference         // System.NullReferenceException
    | SchemaError           // SchemaException
    | NotSupported          // System.NotSupportedException
    | FormatError           // System.FormatException
    | ApplicationError      // System.ApplicationException
    | NotImplemented        // System.NotImplementedException
    | InvalidOperation      // System.InvalidOperationException
    // C++ exceptions and error codes of the library
    | LogicError            // std::logic_error
    | OutOfRange            // std::out_of_range
    | ArgumentOutOfDomain   // std::errc::argument_out_of_domain
    | HostUnreachable       // std::errc::host_unreachable
    | IoError               // std::errc::io_error
    | InvalidArgument       // std::errc::invalid_argument
    | FunctionNotSupported  // std::errc::function_not_supported
    | BadMessage            // std::errc::bad_message

  /** A value that may be absent; stands for a C# reference that may be `null`. */
  datatype Option<+T> = None | Some(value: T)

  /** Either a value or the failure that replaced it. */
  datatype Result<+T> = Ok(value: T) | Err(failure: Failure) {
    predicate IsFailure() { Err? }

    function PropagateFailure<U>(): Result<U>
      requires Err?
    {
      Err(failure)
    }

    function Extract(): T
      requires Ok?
    {
      value
    }
  }
}
