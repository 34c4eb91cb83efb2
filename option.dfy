/** A C# reference or nullable value: `Null` stands for `null`. */
datatype Option<T> = Null | Some(value: T)
