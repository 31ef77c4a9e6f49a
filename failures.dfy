/** The exceptions the processor lets escape, as values. */
module Failures {

  datatype Failure =
    /** `FileNotFoundError` from `analyze_file` (src/shopbotjog/core.py:35-36). */
    | FileNotFound
    /** `ValueError` for a file whose suffix is not `.sbp` (core.py:38-39). */
    | NotSbpFile
    /** `ValueError` from `float()` on a matched field; its message,
        "could not convert string to float", quotes this field. */
    | BadNumber(field: string)
    /** `ZeroDivisionError` from a rate of zero. */
    | ZeroDivision
    /** `OSError` from opening the output for writing. */
    | WriteFailed
}
