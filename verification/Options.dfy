module Options {
  datatype Option<+T> = None | Some(value: T) {
    function GetOrElse(default: T): T {
      if Some? then value else default
    }
  }
}
