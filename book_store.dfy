/** The client's Pinia store of books: a local list kept in step with the
    server. Each action awaits one API call (an input here) and changes the
    list only after that call succeeds. */
module ClientBooks {
  import opened Js
  import opened JsArray

  /** A book as the client holds it (`IBook`). */
  datatype Book = Book(
    id: string,
    title: string,
    description: string,
    author: string,
    genres: seq<string>,
    image: string,
    publishedYear: int)

  /** What `PATCH /books/:id` answers: `{ message, data }`, `data` being the
      book as re-read from the database. */
  datatype UpdateReply = UpdateReply(message: string, data: Book)

  function BookId(b: Book): string { b.id }

  class BookStore {
    /** `books.value` */
    var books: seq<Book>

    constructor ()
      ensures books == []
    {
      books := [];
    }

    /** `fetchBooks`: the list becomes the server's list. */
    method FetchBooks(response: ApiResult<seq<Book>>) returns (outcome: Outcome)
      modifies this
      ensures outcome == OutcomeOf(response)
      ensures books == if response.Ok? then response.data else old(books)
    {
      outcome := OutcomeOf(response);
      if response.Ok? {
        books := response.data;
      }
    }

    /** `addBook`: the record the server created goes at the end, behind the
        unchanged earlier books. */
    method AddBook(response: ApiResult<Book>) returns (outcome: Outcome)
      modifies this
      ensures outcome == OutcomeOf(response)
      ensures books == if response.Ok? then old(books) + [response.data] else old(books)
    {
      outcome := OutcomeOf(response);
      if response.Ok? {
        books := books + [response.data];
      }
    }

    /** `updateBook`: the first book with the updated book's id is replaced by
        the server's `data`; nothing else moves, and without a match nothing
        changes. */
    method UpdateBook(updated: Book, response: ApiResult<UpdateReply>) returns (outcome: Outcome)
      modifies this
      ensures outcome == OutcomeOf(response)
      ensures books == if response.Ok? then ReplaceFirstById(old(books), BookId, updated.id, response.data.data)
                       else old(books)
    {
      outcome := OutcomeOf(response);
      if response.Ok? {
        var index := FindIndexById(books, BookId, updated.id);
        ReplaceFirstIsIndexUpdate(books, BookId, updated.id, response.data.data);
        if index != -1 {
          books := books[index := response.data.data];
        }
      }
    }

    /** `deleteBook`: after the server confirms, every book with that id is
        filtered out; a failed call leaves the list alone and is rethrown. */
    method DeleteBook(id: string, response: ApiResult<()>) returns (outcome: Outcome)
      modifies this
      ensures outcome == OutcomeOf(response)
      ensures books == if response.Ok? then WithoutId(old(books), BookId, id) else old(books)
    {
      outcome := OutcomeOf(response);
      if response.Ok? {
        books := WithoutId(books, BookId, id);
      }
    }
  }
}
