/** Names that the crosstalk components share. */
module Crosstalk {

  type Session = string

  type Time = int
}
