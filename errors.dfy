/**
 * The PascalErrorCode constants the modelled scanners and parsers report.
 * The other codes of the enumeration are not used here.
 */
module PascalErrors {

  datatype ErrorCode =
    | UNEXPECTED_EOF
    | MISSING_BAR
    | MISSING_DO
    | MISSING_LESSTHAN0
    | MISSING_EQUAL0
    | MISSING_GREATERTHAN0
}
