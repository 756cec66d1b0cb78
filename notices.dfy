/** The toast notifications the hooks raise, reduced to their status and
    their fixed description text. */
module Notices {

  datatype Status = Success | Failure

  datatype Toast = Toast(status: Status, description: string)
}
