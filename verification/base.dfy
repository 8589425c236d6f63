/** Failure-carrying values shared by the airtiler model. */
module Base {

  /** The exceptions the core raises, one constructor per raise site. */
  datatype Error =
    | BboxNotDictOrList          // RuntimeError: bbox is neither a dict nor a list
    | MissingCornerKey(key: string)  // KeyError on a dict bbox
    | IndexError                 // IndexError: a list index past either end
    | NoBoundingBoxes            // RuntimeError: config without "boundingboxes"
    | NoZoomLevels(bbox: string) // RuntimeError: neither config nor bbox gives zoom levels

  datatype Result<T> = Ok(value: T) | Err(error: Error)

  datatype Option<T> = None | Some(value: T)
}
