/** What the installer's file primitives report. */
module Installer {

  datatype Action = Created | Updated | Unchanged | Removed | Skipped
}
