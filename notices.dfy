/** The alerts the game raises, returned to the caller instead of shown. */
module Notices {

  datatype Notice =
    | Silent                                  // no alert
    | CapacityExceeded(maxNumberOfBoxes: int)  // the character cannot carry more than maxNumberOfBoxes boxes
    | NothingToTransfer                        // the dragged warehouse is empty
    | AllBoxesMoved                            // every box of the game has been moved
}
