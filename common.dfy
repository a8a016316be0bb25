/** Values shared by every part of the plotting widget: points in function
    space, colours, and the errors the widget signals to its callers. */
module Common {

  /** A point of a function in logical (function-space) coordinates. */
  datatype Point = Point(x: real, y: real)

  /** One colour channel, as accepted by an RGB colour. */
  type Channel = c: int | 0 <= c <= 255

  datatype Color = Color(red: Channel, green: Channel, blue: Channel)

  /** The failures the widget reports.
      IllegalArgument stands for every IllegalArgumentException the widget
      throws (inverted bounds, a non-positive scale, a missing point array or
      name); ReservedName carries the rejected name; Evaluation is a failure
      raised by a user-supplied mathematical function while it is sampled. */
  datatype PlotError =
    | IllegalArgument
    | ReservedName(name: string)
    | Evaluation(reason: string)

  datatype Result<+T> = Ok(value: T) | Err(error: PlotError)

  /** Nullable references and optional arguments. */
  datatype Option<+T> = None | Some(value: T)
}
