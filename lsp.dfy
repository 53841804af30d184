/** The editor protocol's diagnostic severities, shared by the properties
  * file and the Java file diagnostics. */
module Lsp {
  datatype Severity = Error | Warning | Information | Hint
}
