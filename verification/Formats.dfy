/** What the file formats of backend/internal/service/importexport.go have in common. */
module Formats {
  import opened Text

  const BYTE_ORDER_MARK: string := "\U{FEFF}"

  datatype Field = Field(column: string, target: string, required: bool, defaultValue: string)

  /** The values of a record by target. */
  type Values = map<string, string>

  function ValueOf(values: Values, target: string): string {
    if target in values then values[target] else ""
  }

  function TrimPrefix(s: string, prefix: string): string {
    if StartsAt(s, prefix, 0) then s[|prefix|..] else s
  }
}
