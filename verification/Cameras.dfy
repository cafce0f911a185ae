/** The cameras of a group: bits of an 8-bit mask. */
module Cameras {

  type Cam = c: nat | c < 8
}
