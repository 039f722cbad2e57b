/** The words of an expression's syntax. */
module Words {
  import opened Rewriter

  datatype Tag = NoTag | NameTag(tag: string) | StarTag

  datatype Step = Dotted | Indexed | Sliced(lower: bool, upper: bool, stride: bool)

  /** The words that are an expression's own, without its operands. */
  datatype Word =
    | ColumnWord(name: string)
    | TextWord(text: string)
    | NumberWord(digits: string)
    | BinaryWord(op: BinaryOp)
    | UnaryWord(uop: UnaryOp)
    | CallWord(path: seq<string>, plain: bool, decoration: nat, tags: seq<Tag>)
    | StarWord
    | LikeWord(negated: bool, anyOf: bool, escaped: bool)
    | ExtractWord(field: DateField)
    | CaseWord
    | AccessWord(steps: seq<Step>)
    | SliceWord
    | AbsentWord
}
