/** How a statement sent to a database can fare. */
module Faults {

  /** Carried out; refused without effect; or carried out with its answer lost. A crash refuses everything after it. */
  datatype Fault = NoFault | Refused | Lost
}
